/**
  The summary of a profile recording: stack lines accumulated into weights by
  leaf, by frame, by thread role and by whole stack, and ranked.
*/
module Profiles {
  import opened Numbers
  import opened Wrappers

  datatype ThreadRole =
    | EventLoop | VirtualCarrier | VirtualThread | WakeNotifier | Lifecycle | Gc | Compiler | OtherJvm | Unattributed

  /** One stack line, split: its weight, the name of its thread if it has one, and its frames. */
  datatype Line = Line(weight: int, thread: Option<string>, frames: seq<string>)

  /** A recording with how it was made; `top` limits the ranked lists. */
  datatype ProfileInput = ProfileInput(event: string, completedRequests: int, top: Option<int>, lines: seq<Line>)

  datatype Error =
    | UnsupportedEvent | BadRequestCount | BadTop
    | BadWeight | EmptyFrame | NoStack | WeightTooLarge | TotalTooLarge | NoSamples

  datatype Stack = Stack(role: ThreadRole, frames: seq<string>)

  datatype Summary = Summary(
    totalWeight: int,
    stackLines: int,
    maxDepth: int,
    roles: map<ThreadRole, int>,
    leaves: map<string, int>,
    inclusive: map<string, int>,
    stacks: map<Stack, int>,
    missingThreadWeight: int)

  // ------------------------------------------------------------ thread roles

  predicate StartsWith(s: string, prefix: string) {
    |prefix| <= |s| && s[..|prefix|] == prefix
  }

  predicate Includes(s: string, part: string)
    decreases |s|
  {
    StartsWith(s, part) || (s != [] && Includes(s[1..], part))
  }

  function Role(name: Option<string>): (role: ThreadRole)
    ensures role.Unattributed? <==> name.None?
  {
    if name.None? then Unattributed
    else if StartsWith(name.value, "h2o-evloop") then EventLoop
    else if StartsWith(name.value, "ForkJoinPool") then VirtualCarrier
    else if StartsWith(name.value, "VirtualThread") then VirtualThread
    else if StartsWith(name.value, "busker-wake") then WakeNotifier
    else if StartsWith(name.value, "busker-lifecycl") then Lifecycle
    else if StartsWith(name.value, "GC Thread") || StartsWith(name.value, "G1 ")
            || StartsWith(name.value, "ZGC") || StartsWith(name.value, "ZWorker") then Gc
    else if Includes(name.value, "Compiler") then Compiler
    else OtherJvm
  }

  // ------------------------------------------------- what the roles mean

  ghost predicate Begins(s: string, prefix: string) {
    exists rest: string :: s == prefix + rest
  }

  ghost predicate Holds(s: string, part: string) {
    exists before: string, rest: string :: s == before + part + rest
  }

  lemma BeginsIs(s: string, prefix: string)
    ensures StartsWith(s, prefix) <==> Begins(s, prefix)
  {
    if StartsWith(s, prefix) {
      assert s == prefix + s[|prefix|..];
    }
    if Begins(s, prefix) {
      var rest :| s == prefix + rest;
      assert s[..|prefix|] == prefix;
    }
  }

  lemma {:induction false} IncludedHolds(s: string, part: string)
    requires Includes(s, part)
    ensures Holds(s, part)
    decreases |s|
  {
    if StartsWith(s, part) {
      assert s == [] + part + s[|part|..];
    } else {
      IncludedHolds(s[1..], part);
      HoldsLater(s, part);
    }
  }

  lemma HoldsLater(s: string, part: string)
    requires s != [] && Holds(s[1..], part)
    ensures Holds(s, part)
  {
    var before, rest :| s[1..] == before + part + rest;
    assert [s[0]] + s[1..] == ([s[0]] + before) + part + rest;
  }

  lemma {:induction false} HeldIsIncluded(s: string, before: string, part: string, rest: string)
    requires s == before + part + rest
    ensures Includes(s, part)
    decreases |before|
  {
    if before == [] {
      assert s[..|part|] == part;
    } else {
      assert s[1..] == before[1..] + part + rest;
      HeldIsIncluded(s[1..], before[1..], part, rest);
    }
  }

  lemma HoldsIs(s: string, part: string)
    ensures Includes(s, part) <==> Holds(s, part)
  {
    if Includes(s, part) {
      IncludedHolds(s, part);
    }
    if Holds(s, part) {
      var before, rest :| s == before + part + rest;
      HeldIsIncluded(s, before, part, rest);
    }
  }

  /** The beginnings of thread names that decide a role; no two of them agree. */
  ghost predicate BeginsLike(name: string, role: ThreadRole) {
    match role
    case EventLoop => Begins(name, "h2o-evloop")
    case VirtualCarrier => Begins(name, "ForkJoinPool")
    case VirtualThread => Begins(name, "VirtualThread")
    case WakeNotifier => Begins(name, "busker-wake")
    case Lifecycle => Begins(name, "busker-lifecycl")
    case Gc => Begins(name, "GC Thread") || Begins(name, "G1 ") || Begins(name, "ZGC") || Begins(name, "ZWorker")
    case _ => false
  }

  /** A line plays a role: its thread's name begins like it, or else says that it compiles, or is any other. */
  ghost predicate Plays(l: Line, role: ThreadRole) {
    if l.thread.None? then role.Unattributed?
    else
      var name := l.thread.value;
      match role
      case Unattributed => false
      case Compiler => Holds(name, "Compiler") && forall r :: !BeginsLike(name, r)
      case OtherJvm => !Holds(name, "Compiler") && forall r :: !BeginsLike(name, r)
      case _ => BeginsLike(name, role)
  }

  lemma BeginningAt(name: string, a: string, i: nat)
    requires i < |a| && StartsWith(name, a)
    ensures i < |name| && name[i] == a[i]
  {
    assert name[..|a|][i] == a[i];
  }

  lemma OneBeginning(name: string, a: string, b: string, i: nat)
    requires i < |a| && i < |b| && a[i] != b[i]
    ensures !(StartsWith(name, a) && StartsWith(name, b))
  {
    hide StartsWith;
    if StartsWith(name, a) {
      BeginningAt(name, a, i);
    }
    if StartsWith(name, b) {
      BeginningAt(name, b, i);
    }
  }

  /** The order in which the beginnings are tried does not matter. */
  lemma BeginningsDiffer(name: string)
    ensures StartsWith(name, "h2o-evloop") ==> Role(Some(name)) == EventLoop
    ensures StartsWith(name, "ForkJoinPool") ==> Role(Some(name)) == VirtualCarrier
    ensures StartsWith(name, "VirtualThread") ==> Role(Some(name)) == VirtualThread
    ensures StartsWith(name, "busker-wake") ==> Role(Some(name)) == WakeNotifier
    ensures StartsWith(name, "busker-lifecycl") ==> Role(Some(name)) == Lifecycle
    ensures StartsWith(name, "GC Thread") ==> Role(Some(name)) == Gc
    ensures StartsWith(name, "G1 ") ==> Role(Some(name)) == Gc
    ensures StartsWith(name, "ZGC") ==> Role(Some(name)) == Gc
    ensures StartsWith(name, "ZWorker") ==> Role(Some(name)) == Gc
  {
    hide StartsWith;
    OneBeginning(name, "h2o-evloop", "ForkJoinPool", 0);
    OneBeginning(name, "h2o-evloop", "VirtualThread", 0);
    OneBeginning(name, "h2o-evloop", "busker-wake", 0);
    OneBeginning(name, "h2o-evloop", "busker-lifecycl", 0);
    OneBeginning(name, "ForkJoinPool", "VirtualThread", 0);
    OneBeginning(name, "ForkJoinPool", "busker-wake", 0);
    OneBeginning(name, "ForkJoinPool", "busker-lifecycl", 0);
    OneBeginning(name, "VirtualThread", "busker-wake", 0);
    OneBeginning(name, "VirtualThread", "busker-lifecycl", 0);
    OneBeginning(name, "busker-wake", "busker-lifecycl", 7);
    GcBeginsAlone(name, "h2o-evloop");
    GcBeginsAlone(name, "ForkJoinPool");
    GcBeginsAlone(name, "VirtualThread");
    GcBeginsAlone(name, "busker-wake");
    GcBeginsAlone(name, "busker-lifecycl");
  }

  lemma GcBeginsAlone(name: string, other: string)
    requires other != [] && other[0] != 'G' && other[0] != 'Z'
    ensures StartsWith(name, other) ==>
      !StartsWith(name, "GC Thread") && !StartsWith(name, "G1 ") && !StartsWith(name, "ZGC")
        && !StartsWith(name, "ZWorker")
  {
    hide StartsWith;
    OneBeginning(name, other, "GC Thread", 0);
    OneBeginning(name, other, "G1 ", 0);
    OneBeginning(name, other, "ZGC", 0);
    OneBeginning(name, other, "ZWorker", 0);
  }

  lemma LikeIs(name: string, role: ThreadRole)
    ensures BeginsLike(name, role) <==>
      Role(Some(name)) == role && !role.Compiler? && !role.OtherJvm? && !role.Unattributed?
  {
    hide StartsWith, Begins, Includes;
    BeginningsDiffer(name);
    BeginsIs(name, "h2o-evloop");
    BeginsIs(name, "ForkJoinPool");
    BeginsIs(name, "VirtualThread");
    BeginsIs(name, "busker-wake");
    BeginsIs(name, "busker-lifecycl");
    BeginsIs(name, "GC Thread");
    BeginsIs(name, "G1 ");
    BeginsIs(name, "ZGC");
    BeginsIs(name, "ZWorker");
  }

  /** Every line plays the role that it is counted under and no other. */
  lemma RoleIsPlayed(l: Line, role: ThreadRole)
    ensures RoleOf(l) == role <==> Plays(l, role)
  {
    if l.thread.Some? {
      hide Role, BeginsLike;
      var name := l.thread.value;
      forall r ensures BeginsLike(name, r) <==>
        Role(Some(name)) == r && !r.Compiler? && !r.OtherJvm? && !r.Unattributed? {
        LikeIs(name, r);
      }
      HoldsIs(name, "Compiler");
      LastRoles(name);
    }
  }

  lemma LastRoles(name: string)
    ensures Role(Some(name)) == Compiler ==> Includes(name, "Compiler")
    ensures Role(Some(name)) == OtherJvm ==> !Includes(name, "Compiler")
  {
    hide StartsWith, Includes;
  }

  // ------------------------------------------------------- weights, by meaning

  function Total(lines: seq<Line>): int {
    if lines == [] then 0 else Total(lines[..|lines| - 1]) + lines[|lines| - 1].weight
  }

  /** The weight of the lines for which `counts` says yes, each counted once. */
  ghost function WeightOf(lines: seq<Line>, counts: Line -> bool): int {
    if lines == [] then 0
    else WeightOf(lines[..|lines| - 1], counts) + (if counts(lines[|lines| - 1]) then lines[|lines| - 1].weight else 0)
  }

  function RoleOf(l: Line): ThreadRole {
    Role(l.thread)
  }

  function Leaf(l: Line): string {
    if l.frames == [] then "" else l.frames[|l.frames| - 1]
  }

  function StackOf(l: Line): Stack {
    Stack(Role(l.thread), l.frames)
  }

  function Get<K>(m: map<K, int>, k: K): int {
    if k in m then m[k] else 0
  }

  function Bumped<K>(m: map<K, int>, k: K, weight: int): map<K, int> {
    m[k := Get(m, k) + weight]
  }

  /** The counts of all lines by one key each. */
  function Tally<K>(lines: seq<Line>, key: Line -> K): map<K, int> {
    if lines == [] then map[]
    else Bumped(Tally(lines[..|lines| - 1], key), key(lines[|lines| - 1]), lines[|lines| - 1].weight)
  }

  /** One weight for each different frame among the first n. */
  function BumpedFrames(m: map<string, int>, frames: seq<string>, n: nat, weight: int): map<string, int>
    requires n <= |frames|
  {
    if n == 0 then m
    else
      var before := BumpedFrames(m, frames, n - 1, weight);
      if frames[n - 1] in frames[..n - 1] then before else Bumped(before, frames[n - 1], weight)
  }

  function TallyFrames(lines: seq<Line>): map<string, int> {
    if lines == [] then map[]
    else
      var last := lines[|lines| - 1];
      BumpedFrames(TallyFrames(lines[..|lines| - 1]), last.frames, |last.frames|, last.weight)
  }

  function MaxDepth(lines: seq<Line>): int {
    if lines == [] then 0
    else
      var before, depth := MaxDepth(lines[..|lines| - 1]), |lines[|lines| - 1].frames|;
      if before < depth then depth else before
  }

  function MissingThread(lines: seq<Line>): int {
    if lines == [] then 0
    else
      var last := lines[|lines| - 1];
      MissingThread(lines[..|lines| - 1]) + (if last.thread.None? then last.weight else 0)
  }

  /** Every count is the weight of exactly the lines with that key. */
  lemma {:induction false} TallyIsWeight<K>(lines: seq<Line>, key: Line -> K, k: K)
    ensures Get(Tally(lines, key), k) == WeightOf(lines, (l: Line) => key(l) == k)
  {
    if lines != [] {
      TallyIsWeight(lines[..|lines| - 1], key, k);
    }
  }

  lemma {:induction false} BumpedFramesOnce(m: map<string, int>, frames: seq<string>, n: nat, weight: int, f: string)
    requires n <= |frames|
    ensures Get(BumpedFrames(m, frames, n, weight), f) == Get(m, f) + (if f in frames[..n] then weight else 0)
  {
    if n > 0 {
      BumpedFramesOnce(m, frames, n - 1, weight, f);
      assert frames[..n] == frames[..n - 1] + [frames[n - 1]];
    }
  }

  /** A frame's inclusive count is the weight of the lines that contain it, however often they do. */
  lemma {:induction false} FramesAreWeight(lines: seq<Line>, f: string)
    ensures Get(TallyFrames(lines), f) == WeightOf(lines, (l: Line) => f in l.frames)
  {
    if lines != [] {
      var last := lines[|lines| - 1];
      FramesAreWeight(lines[..|lines| - 1], f);
      BumpedFramesOnce(TallyFrames(lines[..|lines| - 1]), last.frames, |last.frames|, last.weight, f);
      assert last.frames[..|last.frames|] == last.frames;
    }
  }

  lemma {:induction false} WeightIsPart(lines: seq<Line>, counts: Line -> bool)
    requires forall l :: l in lines ==> l.weight > 0
    ensures 0 <= WeightOf(lines, counts) <= Total(lines)
  {
    if lines != [] {
      WeightIsPart(lines[..|lines| - 1], counts);
    }
  }

  // ------------------------------------------------------------------- sums

  ghost function Sum<K>(m: map<K, int>): int {
    if m == map[] then 0
    else
      var k :| k in m;
      m[k] + Sum(m - {k})
  }

  lemma {:induction false} SumAt<K>(m: map<K, int>, k: K)
    requires k in m
    ensures Sum(m) == m[k] + Sum(m - {k})
    decreases |m|
  {
    var c :| c in m && Sum(m) == m[c] + Sum(m - {c});
    if c != k {
      SumAt(m - {c}, k);
      SumAt(m - {k}, c);
      assert m - {c} - {k} == m - {k} - {c};
    }
  }

  lemma SumBumped<K>(m: map<K, int>, k: K, weight: int)
    ensures Sum(Bumped(m, k, weight)) == Sum(m) + weight
  {
    var b := Bumped(m, k, weight);
    SumAt(b, k);
    if k in m {
      SumAt(m, k);
      assert b - {k} == m - {k};
    } else {
      assert b - {k} == m;
    }
  }

  /** Counted by one key each, the counts add up to the total: leaves, thread roles and whole stacks do. */
  lemma {:induction false} TallySums<K>(lines: seq<Line>, key: Line -> K)
    ensures Sum(Tally(lines, key)) == Total(lines)
  {
    if lines != [] {
      TallySums(lines[..|lines| - 1], key);
      SumBumped(Tally(lines[..|lines| - 1], key), key(lines[|lines| - 1]), lines[|lines| - 1].weight);
    }
  }

  /** The weight without a thread is the weight of the role that nothing else has. */
  lemma {:induction false} MissingIsUnattributed(lines: seq<Line>)
    ensures MissingThread(lines) == Get(Tally(lines, RoleOf), Unattributed)
  {
    if lines != [] {
      MissingIsUnattributed(lines[..|lines| - 1]);
    }
  }

  // ----------------------------------------------------------- accumulating

  /** The characters that trimming a frame removes. */
  predicate IsSpace(c: char) {
    || '\U{9}' <= c <= '\U{D}' || c == ' ' || c == '\U{A0}' || c == '\U{1680}' || '\U{2000}' <= c <= '\U{200A}'
    || c == '\U{2028}' || c == '\U{2029}' || c == '\U{202F}' || c == '\U{205F}' || c == '\U{3000}' || c == '\U{FEFF}'
  }

  predicate IsBlank(s: string) {
    forall c :: c in s ==> IsSpace(c)
  }

  predicate ValidLine(l: Line) {
    && 0 < l.weight <= MAX_SAFE_INTEGER && l.frames != [] && forall f :: f in l.frames ==> !IsBlank(f)
  }

  function SummaryOf(lines: seq<Line>): Summary {
    Summary(Total(lines), |lines|, MaxDepth(lines), Tally(lines, RoleOf), Tally(lines, Leaf), TallyFrames(lines),
            Tally(lines, StackOf), MissingThread(lines))
  }

  predicate ValidLines(lines: seq<Line>) {
    lines != [] && (forall l :: l in lines ==> ValidLine(l)) && Total(lines) <= MAX_SAFE_INTEGER
  }

  predicate ValidInput(input: ProfileInput) {
    && input.event in {"cpu", "ctimer", "wall", "alloc"}
    && 0 < input.completedRequests <= MAX_SAFE_INTEGER
    && 1 <= TopOf(input) <= 100
  }

  function TopOf(input: ProfileInput): int {
    if input.top.None? then 20 else input.top.value
  }

  lemma {:induction false} SameWeight(lines: seq<Line>, p: Line -> bool, q: Line -> bool)
    requires forall l :: l in lines ==> p(l) == q(l)
    ensures WeightOf(lines, p) == WeightOf(lines, q)
  {
    if lines != [] {
      SameWeight(lines[..|lines| - 1], p, q);
    }
  }

  lemma {:induction false} TallyKeys<K>(lines: seq<Line>, key: Line -> K, k: K)
    ensures k in Tally(lines, key) <==> exists l :: l in lines && key(l) == k
  {
    if lines != [] {
      TallyKeys(lines[..|lines| - 1], key, k);
      assert lines == lines[..|lines| - 1] + [lines[|lines| - 1]];
    }
  }

  lemma {:induction false} BumpedKeys(m: map<string, int>, frames: seq<string>, n: nat, weight: int, f: string)
    requires n <= |frames|
    ensures f in BumpedFrames(m, frames, n, weight) <==> f in m || f in frames[..n]
  {
    if n > 0 {
      BumpedKeys(m, frames, n - 1, weight, f);
      assert frames[..n] == frames[..n - 1] + [frames[n - 1]];
    }
  }

  lemma {:induction false} FrameKeys(lines: seq<Line>, f: string)
    ensures f in TallyFrames(lines) <==> exists l :: l in lines && f in l.frames
  {
    if lines != [] {
      var last := lines[|lines| - 1];
      FrameKeys(lines[..|lines| - 1], f);
      BumpedKeys(TallyFrames(lines[..|lines| - 1]), last.frames, |last.frames|, last.weight, f);
      assert last.frames[..|last.frames|] == last.frames;
      assert lines == lines[..|lines| - 1] + [last];
    }
  }

  lemma {:induction false} DepthIsReached(lines: seq<Line>)
    ensures forall l :: l in lines ==> |l.frames| <= MaxDepth(lines)
    ensures lines != [] ==> exists l :: l in lines && |l.frames| == MaxDepth(lines)
  {
    if lines != [] {
      DepthIsReached(lines[..|lines| - 1]);
      assert lines == lines[..|lines| - 1] + [lines[|lines| - 1]];
      assert lines[|lines| - 1] in lines;
    }
  }

  lemma {:induction false} AllWeights(lines: seq<Line>)
    ensures Total(lines) == WeightOf(lines, (l: Line) => true)
    ensures MissingThread(lines) == WeightOf(lines, (l: Line) => l.thread.None?)
  {
    if lines != [] {
      AllWeights(lines[..|lines| - 1]);
    }
  }

  predicate EndsIn(l: Line, f: string) {
    l.frames != [] && l.frames[|l.frames| - 1] == f
  }

  /** Each leaf's weight is that of the lines whose last frame it is. */
  ghost predicate LeavesTold(leaves: map<string, int>, lines: seq<Line>) {
    forall f ::
      && Get(leaves, f) == WeightOf(lines, (l: Line) => EndsIn(l, f))
      && (f in leaves <==> exists l :: l in lines && EndsIn(l, f))
  }

  /** Each frame's weight is that of the lines it occurs in. */
  ghost predicate FramesTold(inclusive: map<string, int>, lines: seq<Line>) {
    forall f ::
      && Get(inclusive, f) == WeightOf(lines, (l: Line) => f in l.frames)
      && (f in inclusive <==> exists l :: l in lines && f in l.frames)
  }

  /** Each role's weight is that of the lines that play it. */
  ghost predicate RolesTold(roles: map<ThreadRole, int>, lines: seq<Line>) {
    forall role ::
      && Get(roles, role) == WeightOf(lines, (l: Line) => Plays(l, role))
      && (role in roles <==> exists l :: l in lines && Plays(l, role))
  }

  /** Each stack's weight is that of the lines with just these frames whose thread plays its role. */
  ghost predicate StacksTold(stacks: map<Stack, int>, lines: seq<Line>) {
    forall stack ::
      && Get(stacks, stack) == WeightOf(lines, (l: Line) => Plays(l, stack.role) && l.frames == stack.frames)
      && (stack in stacks <==> exists l :: l in lines && Plays(l, stack.role) && l.frames == stack.frames)
  }

  /** What a summary says about its lines, with every key written out. */
  ghost predicate Tells(sum: Summary, lines: seq<Line>) {
    && sum.totalWeight == WeightOf(lines, (l: Line) => true) && sum.stackLines == |lines|
    && LeavesTold(sum.leaves, lines) && FramesTold(sum.inclusive, lines)
    && RolesTold(sum.roles, lines) && StacksTold(sum.stacks, lines)
    && sum.missingThreadWeight == WeightOf(lines, (l: Line) => l.thread.None?)
    && (exists l :: l in lines && |l.frames| == sum.maxDepth) && (forall l :: l in lines ==> |l.frames| <= sum.maxDepth)
  }

  lemma LeavesAreTold(lines: seq<Line>)
    requires forall l :: l in lines ==> l.frames != []
    ensures LeavesTold(Tally(lines, Leaf), lines)
  {
    forall f
      ensures Get(Tally(lines, Leaf), f) == WeightOf(lines, (l: Line) => EndsIn(l, f))
      ensures f in Tally(lines, Leaf) <==> exists l :: l in lines && EndsIn(l, f)
    {
      TallyIsWeight(lines, Leaf, f);
      SameWeight(lines, (l: Line) => Leaf(l) == f, (l: Line) => EndsIn(l, f));
      TallyKeys(lines, Leaf, f);
    }
  }

  lemma FramesAreTold(lines: seq<Line>)
    ensures FramesTold(TallyFrames(lines), lines)
  {
    forall f
      ensures Get(TallyFrames(lines), f) == WeightOf(lines, (l: Line) => f in l.frames)
      ensures f in TallyFrames(lines) <==> exists l :: l in lines && f in l.frames
    {
      FramesAreWeight(lines, f);
      FrameKeys(lines, f);
    }
  }

  lemma RolesAreTold(lines: seq<Line>)
    ensures RolesTold(Tally(lines, RoleOf), lines)
  {
    hide Plays, RoleOf;
    forall role
      ensures Get(Tally(lines, RoleOf), role) == WeightOf(lines, (l: Line) => Plays(l, role))
      ensures role in Tally(lines, RoleOf) <==> exists l :: l in lines && Plays(l, role)
    {
      forall l: Line ensures RoleOf(l) == role <==> Plays(l, role) {
        RoleIsPlayed(l, role);
      }
      TallyIsWeight(lines, RoleOf, role);
      SameWeight(lines, (l: Line) => RoleOf(l) == role, (l: Line) => Plays(l, role));
      TallyKeys(lines, RoleOf, role);
    }
  }

  lemma StackIs(l: Line, stack: Stack)
    ensures StackOf(l) == stack <==> Plays(l, stack.role) && l.frames == stack.frames
  {
    hide Plays, Role;
    RoleIsPlayed(l, stack.role);
  }

  lemma StacksAreTold(lines: seq<Line>)
    ensures StacksTold(Tally(lines, StackOf), lines)
  {
    hide Plays, StackOf;
    forall stack
      ensures Get(Tally(lines, StackOf), stack)
           == WeightOf(lines, (l: Line) => Plays(l, stack.role) && l.frames == stack.frames)
      ensures stack in Tally(lines, StackOf)
         <==> exists l :: l in lines && Plays(l, stack.role) && l.frames == stack.frames
    {
      forall l: Line ensures StackOf(l) == stack <==> Plays(l, stack.role) && l.frames == stack.frames {
        StackIs(l, stack);
      }
      TallyIsWeight(lines, StackOf, stack);
      SameWeight(lines, (l: Line) => StackOf(l) == stack, (l: Line) => Plays(l, stack.role)
                 && l.frames == stack.frames);
      TallyKeys(lines, StackOf, stack);
    }
  }

  lemma SummaryTells(lines: seq<Line>)
    requires lines != [] && forall l :: l in lines ==> l.frames != []
    ensures Tells(SummaryOf(lines), lines)
  {
    hide LeavesTold, FramesTold, RolesTold, StacksTold, Role;
    LeavesAreTold(lines);
    FramesAreTold(lines);
    RolesAreTold(lines);
    StacksAreTold(lines);
    AllWeights(lines);
    DepthIsReached(lines);
  }

  /** The first line that is at fault, and why. */
  ghost predicate FailsAt(lines: seq<Line>, i: nat, e: Error) {
    && i < |lines| && (forall j :: 0 <= j < i ==> ValidLine(lines[j])) && Total(lines[..i]) <= MAX_SAFE_INTEGER
    && IsCause(lines[i], Total(lines[..i]), e)
  }

  /** What is wrong with a line, or with the total once it is added. */
  predicate IsCause(l: Line, before: int, e: Error) {
    match e
    case BadWeight => !(0 < l.weight <= MAX_SAFE_INTEGER)
    case EmptyFrame => 0 < l.weight <= MAX_SAFE_INTEGER && exists f :: f in l.frames && IsBlank(f)
    case NoStack => 0 < l.weight <= MAX_SAFE_INTEGER && l.frames == []
    case TotalTooLarge => ValidLine(l) && before + l.weight > MAX_SAFE_INTEGER
    case _ => false
  }

  method Add<K>(counts: map<K, int>, key: K, weight: int) returns (r: Result<map<K, int>, Error>)
    ensures r == if -MAX_SAFE_INTEGER <= Get(counts, key) + weight <= MAX_SAFE_INTEGER
            then Ok(Bumped(counts, key, weight)) else Err(WeightTooLarge)
  {
    var sum := (if key in counts then counts[key] else 0) + weight;
    if sum < -MAX_SAFE_INTEGER || sum > MAX_SAFE_INTEGER {
      return Err(WeightTooLarge);
    }
    return Ok(counts[key := sum]);
  }

  /** A count never exceeds the total, so adding to it stays in range whenever the total does. */
  lemma TallyFits<K>(before: seq<Line>, l: Line, key: Line -> K)
    requires (forall b :: b in before ==> b.weight > 0) && l.weight > 0
    ensures 0 < Get(Tally(before, key), key(l)) + l.weight <= Total(before) + l.weight
  {
    TallyIsWeight(before, key, key(l));
    WeightIsPart(before, (b: Line) => key(b) == key(l));
  }

  /** Charges the weight of a line once to each of its different frames. */
  method AddFrames(counts: map<string, int>, frames: seq<string>, weight: int) returns (r: map<string, int>)
    requires 0 < weight && forall f :: f in frames ==> 0 <= Get(counts, f) <= MAX_SAFE_INTEGER - weight
    ensures r == BumpedFrames(counts, frames, |frames|, weight)
  {
    r := counts;
    var j := 0;
    while j < |frames|
      invariant 0 <= j <= |frames| && r == BumpedFrames(counts, frames, j, weight)
    {
      if frames[j] !in frames[..j] {
        BumpedFramesOnce(counts, frames, j, weight, frames[j]);
        var added := Add(r, frames[j], weight);
        assert added.Ok?;
        r := added.value;
      }
      j := j + 1;
    }
  }

  /** Adds one line to everything that is counted. */
  method AddToSummary(sum: Summary, ghost before: seq<Line>, line: Line) returns (r: Summary)
    requires sum == SummaryOf(before) && (forall b :: b in before ==> b.weight > 0) && ValidLine(line)
    requires Total(before) + line.weight <= MAX_SAFE_INTEGER
    ensures r == SummaryOf(before + [line])
  {
    hide IsBlank, Role, Tally;
    assert (before + [line])[..|before|] == before;
    var roles := AddLine(sum.roles, before, line, RoleOf);
    var leaves := AddLine(sum.leaves, before, line, Leaf);
    FramesFit(before, line);
    var inclusive := AddFrames(sum.inclusive, line.frames, line.weight);
    var stacks := AddLine(sum.stacks, before, line, StackOf);
    var depth := if sum.maxDepth < |line.frames| then |line.frames| else sum.maxDepth;
    var missing := sum.missingThreadWeight;
    if line.thread.None? {
      missing := missing + line.weight;
    }
    r := Summary(sum.totalWeight + line.weight, sum.stackLines + 1, depth, roles, leaves, inclusive, stacks, missing);
  }

  /**
    Accumulates the lines one by one.  Lines are refused exactly when one is
    malformed, when there is none, or when the total leaves the safe range; no
    single count can leave it before the total does.
  */
  /** A fault of the line that comes next after valid ones. */
  lemma Fails(lines: seq<Line>, i: nat, e: Error)
    requires i < |lines| && (forall l :: l in lines[..i] ==> ValidLine(l)) && Total(lines[..i]) <= MAX_SAFE_INTEGER
    requires IsCause(lines[i], Total(lines[..i]), e)
    ensures FailsAt(lines, i, e)
  {
    hide ValidLine, IsCause, Total;
    assert forall j :: 0 <= j < i ==> lines[j] in lines[..i];
  }

  method Accumulate(lines: seq<Line>) returns (r: Result<Summary, Error>)
    ensures r.Ok? <==> ValidLines(lines)
    ensures r.Ok? ==> r.value == SummaryOf(lines)
    ensures r.Err? ==> if lines == [] then r.error == NoSamples else exists i :: FailsAt(lines, i, r.error)
  {
    hide IsBlank, Role, Tally, TallyFrames, MaxDepth, MissingThread, FailsAt;
    var sum := Summary(0, 0, 0, map[], map[], map[], map[], 0);
    NoLines();
    var i := 0;
    while i < |lines|
      invariant 0 <= i <= |lines| && forall l :: l in lines[..i] ==> ValidLine(l)
      invariant sum == SummaryOf(lines[..i]) && sum.totalWeight <= MAX_SAFE_INTEGER
    {
      var line := lines[i];
      assert lines[..i + 1] == lines[..i] + [line];
      assert lines[i] in lines;
      if line.weight <= 0 || line.weight > MAX_SAFE_INTEGER {
        Fails(lines, i, BadWeight);
        return Err(BadWeight);
      }
      if exists f :: f in line.frames && IsBlank(f) {
        Fails(lines, i, EmptyFrame);
        return Err(EmptyFrame);
      }
      if line.frames == [] {
        Fails(lines, i, NoStack);
        return Err(NoStack);
      }
      if sum.totalWeight + line.weight > MAX_SAFE_INTEGER {
        assert lines[..i + 1][..i] == lines[..i];
        TotalGrows(lines, i + 1);
        Fails(lines, i, TotalTooLarge);
        return Err(TotalTooLarge);
      }
      sum := AddToSummary(sum, lines[..i], line);
      i := i + 1;
    }
    assert lines[..i] == lines;
    SomeWeight(lines);
    if sum.totalWeight == 0 {
      return Err(NoSamples);
    }
    return Ok(sum);
  }

  /** Checks how a recording was made, then accumulates its lines. */
  method Summarize(input: ProfileInput) returns (r: Result<Summary, Error>)
    ensures r.Ok? <==>
      && input.event in {"cpu", "ctimer", "wall", "alloc"}
      && 0 < input.completedRequests <= MAX_SAFE_INTEGER && (input.top.Some? ==> 1 <= input.top.value <= 100)
      && input.lines != [] && WeightOf(input.lines, (l: Line) => true) <= MAX_SAFE_INTEGER
      && forall l :: l in input.lines ==>
           && 0 < l.weight <= MAX_SAFE_INTEGER && l.frames != []
           && forall f :: f in l.frames ==> exists c :: c in f && !IsSpace(c)
    ensures r.Ok? ==> r.value == SummaryOf(input.lines) && Tells(r.value, input.lines)
    ensures r.Err? ==>
      match r.error
      case UnsupportedEvent => input.event !in {"cpu", "ctimer", "wall", "alloc"}
      case BadRequestCount => !(0 < input.completedRequests <= MAX_SAFE_INTEGER)
      case BadTop => input.top.Some? && !(1 <= input.top.value <= 100)
      case NoSamples => input.lines == []
      case e => exists i :: FailsAt(input.lines, i, e)
  {
    hide IsSpace;
    AllWeights(input.lines);
    if input.event !in ["cpu", "ctimer", "wall", "alloc"] {
      return Err(UnsupportedEvent);
    }
    if input.completedRequests <= 0 || input.completedRequests > MAX_SAFE_INTEGER {
      return Err(BadRequestCount);
    }
    if TopOf(input) < 1 || TopOf(input) > 100 {
      return Err(BadTop);
    }
    r := Accumulate(input.lines);
    if r.Ok? {
      SummaryTells(input.lines);
    }
  }

  lemma NoLines()
    ensures SummaryOf([]) == Summary(0, 0, 0, map[], map[], map[], map[], 0)
  {
  }

  /** Adds the next line to the counts by one key. */
  method AddLine<K>(counts: map<K, int>, ghost before: seq<Line>, line: Line, key: Line -> K) returns (r: map<K, int>)
    requires counts == Tally(before, key) && (forall b :: b in before ==> b.weight > 0)
    requires line.weight > 0 && Total(before) + line.weight <= MAX_SAFE_INTEGER
    ensures r == Tally(before + [line], key)
  {
    TallyFits(before, line, key);
    assert (before + [line])[..|before|] == before;
    var added := Add(counts, key(line), line.weight);
    assert added.Ok?;
    r := added.value;
  }

  lemma FramesFit(before: seq<Line>, line: Line)
    requires (forall b :: b in before ==> b.weight > 0) && Total(before) + line.weight <= MAX_SAFE_INTEGER
    ensures forall f :: f in line.frames ==> 0 <= Get(TallyFrames(before), f) <= MAX_SAFE_INTEGER - line.weight
  {
    forall f | f in line.frames ensures 0 <= Get(TallyFrames(before), f) <= MAX_SAFE_INTEGER - line.weight {
      FramesAreWeight(before, f);
      WeightIsPart(before, (b: Line) => f in b.frames);
    }
  }

  lemma {:induction false} TotalGrows(lines: seq<Line>, n: nat)
    requires n <= |lines|
    ensures (forall l :: l in lines ==> l.weight > 0) ==> Total(lines[..n]) <= Total(lines)
  {
    if n < |lines| {
      TotalGrows(lines[..|lines| - 1], n);
      assert lines[..|lines| - 1][..n] == lines[..n];
    } else {
      assert lines[..n] == lines;
    }
  }

  lemma SomeWeight(lines: seq<Line>)
    requires forall l :: l in lines ==> l.weight > 0
    ensures lines != [] ==> Total(lines) > 0
  {
    if lines != [] {
      TotalGrows(lines, |lines| - 1);
      WeightIsPart(lines[..|lines| - 1], (l: Line) => true);
    }
  }

  // ---------------------------------------------------------------- ranking

  datatype Ranked = Ranked(name: string, weight: int)

  /** Character by character, a prefix first. */
  predicate NameBefore(a: string, b: string)
    decreases |a|
  {
    b != [] && (a == [] || a[0] < b[0] || (a[0] == b[0] && NameBefore(a[1..], b[1..])))
  }

  /** The comparison of the ranking: heavier first, then by name. */
  predicate Before(a: Ranked, b: Ranked) {
    a.weight > b.weight || (a.weight == b.weight && NameBefore(a.name, b.name))
  }

  lemma {:induction false} NamesCompare(a: string, b: string)
    ensures a == b || NameBefore(a, b) || NameBefore(b, a)
    ensures !(NameBefore(a, b) && NameBefore(b, a))
    ensures !NameBefore(a, a)
  {
    if a != [] {
      NamesCompare(a[1..], a[1..]);
    }
    if a != [] && b != [] && a[0] == b[0] {
      NamesCompare(a[1..], b[1..]);
      assert a == [a[0]] + a[1..] && b == [b[0]] + b[1..];
    }
  }

  lemma {:induction false} NamesChain(a: string, b: string, c: string)
    requires NameBefore(a, b) && NameBefore(b, c)
    ensures NameBefore(a, c)
  {
    if a != [] && a[0] == b[0] == c[0] {
      NamesChain(a[1..], b[1..], c[1..]);
    }
  }

  lemma BeforeChain(a: Ranked, b: Ranked, c: Ranked)
    requires Before(a, b) && Before(b, c)
    ensures Before(a, c)
  {
    if a.weight == b.weight == c.weight {
      NamesChain(a.name, b.name, c.name);
    }
  }

  ghost predicate IsRanked(s: seq<Ranked>) {
    forall i, j :: 0 <= i < j < |s| ==> Before(s[i], s[j])
  }

  /** The entries of the counts, each once, in some order. */
  ghost predicate Enumerates(s: seq<Ranked>, m: map<string, int>) {
    && (forall i, j :: 0 <= i < j < |s| ==> s[i].name != s[j].name)
    && (forall r :: r in s <==> r.name in m && m[r.name] == r.weight)
  }

  function Inserted(r: Ranked, s: seq<Ranked>): seq<Ranked> {
    if s == [] || Before(r, s[0]) then [r] + s else [s[0]] + Inserted(r, s[1..])
  }

  /** Puts one entry where it belongs among ranked ones. */
  lemma {:induction false} InsertedRanks(r: Ranked, s: seq<Ranked>)
    requires IsRanked(s) && forall x :: x in s ==> x.name != r.name
    ensures IsRanked(Inserted(r, s)) && forall x :: x in Inserted(r, s) <==> x == r || x in s
  {
    if s != [] {
      NamesCompare(r.name, s[0].name);
      if Before(r, s[0]) {
        forall i | 0 <= i < |s| ensures Before(r, s[i]) {
          if i > 0 {
            BeforeChain(r, s[0], s[i]);
          }
        }
      } else {
        InsertedRanks(r, s[1..]);
        var t := Inserted(r, s[1..]);
        forall x | x in t ensures Before(s[0], x) {
          assert x == r || x in s[1..];
        }
      }
    }
  }

  /** The first `limit` entries of a ranking of all of them. */
  ghost predicate IsTop(top: seq<Ranked>, entries: seq<Ranked>, limit: nat) {
    exists full ::
      && IsRanked(full) && (forall x :: x in full <==> x in entries)
      && top == if limit <= |full| then full[..limit] else full
  }

  /** Names in the order of their first different characters, a name before all that continue it. */
  ghost predicate Alphabetical(a: string, b: string) {
    exists k :: DifferAt(a, b, k)
  }

  predicate DifferAt(a: string, b: string, k: nat) {
    && k <= |a| && k < |b| && a[..k] == b[..k] && (k == |a| || a[k] < b[k])
  }

  lemma {:induction false} BeforeDiffers(a: string, b: string) returns (k: nat)
    requires NameBefore(a, b)
    ensures DifferAt(a, b, k)
  {
    k := 0;
    if a != [] && a[0] == b[0] {
      var n := BeforeDiffers(a[1..], b[1..]);
      k := n + 1;
      assert a[..k] == [a[0]] + a[1..][..n] && b[..k] == [b[0]] + b[1..][..n];
    }
  }

  lemma {:induction false} DiffersBefore(a: string, b: string, k: nat)
    requires DifferAt(a, b, k)
    ensures NameBefore(a, b)
  {
    if k > 0 {
      assert a[0] == a[..k][0] == b[0];
      assert a[1..][..k - 1] == a[..k][1..] && b[1..][..k - 1] == b[..k][1..];
      DiffersBefore(a[1..], b[1..], k - 1);
    }
  }

  /** Heavier, or as heavy and alphabetically first. */
  ghost predicate Outranks(a: Ranked, b: Ranked) {
    a.weight > b.weight || (a.weight == b.weight && Alphabetical(a.name, b.name))
  }

  lemma BeforeIs(a: Ranked, b: Ranked)
    ensures Before(a, b) <==> Outranks(a, b)
  {
    if NameBefore(a.name, b.name) {
      var _ := BeforeDiffers(a.name, b.name);
    }
    if Alphabetical(a.name, b.name) {
      var k :| DifferAt(a.name, b.name, k);
      DiffersBefore(a.name, b.name, k);
    }
  }

  /** The list is in order, and whatever was left out comes after all of it. */
  ghost predicate Leads(top: seq<Ranked>, entries: seq<Ranked>, limit: nat) {
    && (forall i, j :: 0 <= i < j < |top| ==> Outranks(top[i], top[j]))
    && (forall x :: x in top ==> x in entries)
    && (forall x, i :: x in entries && x !in top && 0 <= i < |top| ==> Outranks(top[i], x))
    && |top| <= limit && (|top| < limit ==> forall x :: x in entries ==> x in top)
  }

  lemma TopLeads(top: seq<Ranked>, entries: seq<Ranked>, limit: nat)
    requires IsTop(top, entries, limit)
    ensures Leads(top, entries, limit)
  {
    hide Outranks;
    var full :| IsRanked(full) && (forall x :: x in full <==> x in entries)
                && top == if limit <= |full| then full[..limit] else full;
    forall a, b ensures Before(a, b) <==> Outranks(a, b) {
      BeforeIs(a, b);
    }
    forall x, i | x in entries && x !in top && 0 <= i < |top| ensures Outranks(top[i], x) {
      var rest := full[|top|..];
      assert full == top + rest;
      var j :| 0 <= j < |rest| && rest[j] == x;
      assert full[|top| + j] == x && full[i] == top[i];
    }
  }

  /** Ranks entries by inserting one after the other, and cuts the list. */
  method Rank(entries: seq<Ranked>, limit: nat) returns (top: seq<Ranked>)
    requires forall i, j :: 0 <= i < j < |entries| ==> entries[i].name != entries[j].name
    ensures IsTop(top, entries, limit) && Leads(top, entries, limit)
  {
    var ranked := [];
    for i := 0 to |entries|
      invariant IsRanked(ranked) && forall x :: x in ranked <==> x in entries[..i]
    {
      InsertedRanks(entries[i], ranked);
      ranked := Inserted(entries[i], ranked);
    }
    top := if limit <= |ranked| then ranked[..limit] else ranked;
    assert entries[..|entries|] == entries;
    TopLeads(top, entries, limit);
  }

  /** The entries of the counts, in any order. */
  method Entries(counts: map<string, int>) returns (entries: seq<Ranked>)
    ensures Enumerates(entries, counts)
  {
    entries := [];
    var rest := counts.Keys;
    while rest != {}
      invariant rest <= counts.Keys
      invariant forall i, j :: 0 <= i < j < |entries| ==> entries[i].name != entries[j].name
      invariant forall r :: r in entries <==> r.name in counts && r.name !in rest && counts[r.name] == r.weight
      decreases rest
    {
      var k :| k in rest;
      entries := entries + [Ranked(k, counts[k])];
      rest := rest - {k};
    }
  }

  /**
    The heaviest entries of the counts, in order: each with its count, and
    whatever is left out comes after all of them.
  */
  ghost predicate Heads(top: seq<Ranked>, counts: map<string, int>, limit: nat) {
    && (forall i :: 0 <= i < |top| ==> top[i].name in counts && counts[top[i].name] == top[i].weight)
    && (forall i, j :: 0 <= i < j < |top| ==> Outranks(top[i], top[j]))
    && (forall name, i :: name in counts && Ranked(name, counts[name]) !in top && 0 <= i < |top| ==>
          Outranks(top[i], Ranked(name, counts[name])))
    && |top| <= limit && (|top| < limit ==> forall name :: name in counts ==> Ranked(name, counts[name]) in top)
  }

  method RankCounts(counts: map<string, int>, limit: nat) returns (top: seq<Ranked>)
    ensures Heads(top, counts, limit)
  {
    hide Outranks;
    var entries := Entries(counts);
    top := Rank(entries, limit);
    assert forall i :: 0 <= i < |top| ==> top[i] in top;
  }

  /** A summary with its ranked leaves and frames. */
  datatype Report = Report(summary: Summary, leaves: seq<Ranked>, inclusive: seq<Ranked>)

  /** Summarizes a recording and ranks its leaves and frames, as many as were asked for and otherwise twenty. */
  method Reported(input: ProfileInput) returns (r: Result<Report, Error>)
    ensures r.Ok? ==>
      var limit := if input.top.Some? then input.top.value else 20;
      && limit > 0 && Tells(r.value.summary, input.lines)
      && Heads(r.value.leaves, r.value.summary.leaves, limit)
      && Heads(r.value.inclusive, r.value.summary.inclusive, limit)
  {
    hide Tells, Heads, IsSpace;
    var summary := Summarize(input);
    if summary.Err? {
      return Err(summary.error);
    }
    var leaves := RankCounts(summary.value.leaves, TopOf(input));
    var inclusive := RankCounts(summary.value.inclusive, TopOf(input));
    return Ok(Report(summary.value, leaves, inclusive));
  }

  /** There is only one ranking of given entries. */
  lemma {:induction false} OneRanking(a: seq<Ranked>, b: seq<Ranked>)
    requires IsRanked(a) && IsRanked(b) && forall x :: x in a <==> x in b
    ensures a == b
  {
    if a == [] {
      if b != [] {
        HasElement(b);
      }
    } else {
      assert a[0] in b;
      assert b[0] in b;
      HeadsAgree(a, b);
      forall x ensures x in a[1..] <==> x in b[1..] {
        NotTwice(a, x);
        NotTwice(b, x);
      }
      OneRanking(a[1..], b[1..]);
      assert a == [a[0]] + a[1..] && b == [b[0]] + b[1..];
    }
  }

  lemma HasElement<T>(s: seq<T>)
    requires s != []
    ensures exists x :: x in s
  {
    assert s[0] in s;
  }

  lemma NotTwice(a: seq<Ranked>, x: Ranked)
    requires IsRanked(a) && a != []
    ensures x in a[1..] <==> x in a && x != a[0]
  {
    NamesCompare(x.name, x.name);
    if x in a && x != a[0] {
      var i :| 0 <= i < |a| && a[i] == x;
      assert a[1..][i - 1] == x;
    }
  }

  lemma HeadsAgree(a: seq<Ranked>, b: seq<Ranked>)
    requires IsRanked(a) && IsRanked(b) && a != [] && b != [] && a[0] in b && b[0] in a
    ensures a[0] == b[0]
  {
    if a[0] != b[0] {
      var i :| 0 <= i < |b| && b[i] == a[0];
      var j :| 0 <= j < |a| && a[j] == b[0];
      assert Before(b[0], b[i]) && Before(a[0], a[j]);
      NamesCompare(a[0].name, b[0].name);
      assert false;
    }
  }

  // ------------------------------------------------------------- line order

  lemma {:induction false} TotalOfSwapped(lines: seq<Line>, i: nat, counts: Line -> bool)
    requires i < |lines|
    ensures WeightOf(lines, counts)
         == WeightOf(lines[..i] + lines[i + 1..], counts) + (if counts(lines[i]) then lines[i].weight else 0)
  {
    var last := |lines| - 1;
    var rest := lines[..i] + lines[i + 1..];
    if i < last {
      var shorter := lines[..last][..i] + lines[..last][i + 1..];
      TotalOfSwapped(lines[..last], i, counts);
      assert rest == shorter + [lines[last]];
      assert rest[..|rest| - 1] == shorter;
    } else {
      assert rest == lines[..last];
    }
  }

  /** The last of one listing, found and taken out in the other. */
  lemma TakeOut(a: seq<Line>, b: seq<Line>) returns (i: nat)
    requires multiset(a) == multiset(b) && a != []
    ensures i < |b| && b[i] == a[|a| - 1]
    ensures multiset(a[..|a| - 1]) == multiset(b[..i] + b[i + 1..])
  {
    var last := a[|a| - 1];
    assert last in multiset(b);
    i :| 0 <= i < |b| && b[i] == last;
    assert a == a[..|a| - 1] + [last];
    assert b == b[..i] + [last] + b[i + 1..];
    assert multiset(a[..|a| - 1]) == multiset(a) - multiset{last};
    assert multiset(b[..i] + b[i + 1..]) == multiset(b) - multiset{last};
  }

  /** The weight of any kind of line is the same in every order of the lines. */
  lemma {:induction false} WeightIgnoresOrder(a: seq<Line>, b: seq<Line>, counts: Line -> bool)
    requires multiset(a) == multiset(b)
    ensures WeightOf(a, counts) == WeightOf(b, counts)
  {
    if a == [] {
      assert |multiset(b)| == 0;
    } else {
      var i := TakeOut(a, b);
      WeightIgnoresOrder(a[..|a| - 1], b[..i] + b[i + 1..], counts);
      TotalOfSwapped(b, i, counts);
    }
  }

  lemma SameLines(a: seq<Line>, b: seq<Line>)
    requires multiset(a) == multiset(b)
    ensures forall l :: l in a <==> l in b
  {
    assert forall l :: l in a <==> l in multiset(a);
    assert forall l :: l in b <==> l in multiset(b);
  }

  lemma {:induction false} TallyHasLines<K>(lines: seq<Line>, key: Line -> K, k: K)
    ensures k in Tally(lines, key) <==> exists l :: l in lines && key(l) == k
  {
    if lines != [] {
      var last := |lines| - 1;
      TallyHasLines(lines[..last], key, k);
      assert lines == lines[..last] + [lines[last]];
    }
  }

  lemma CountIgnoresOrder<K>(a: seq<Line>, b: seq<Line>, key: Line -> K, k: K)
    requires multiset(a) == multiset(b)
    ensures k in Tally(a, key) <==> k in Tally(b, key)
    ensures Get(Tally(a, key), k) == Get(Tally(b, key), k)
  {
    SameLines(a, b);
    TallyHasLines(a, key, k);
    TallyHasLines(b, key, k);
    TallyIsWeight(a, key, k);
    TallyIsWeight(b, key, k);
    WeightIgnoresOrder(a, b, (l: Line) => key(l) == k);
  }

  /** So every summary map is the same, whatever order the recording listed its lines in. */
  lemma TallyIgnoresOrder<K>(a: seq<Line>, b: seq<Line>, key: Line -> K)
    requires multiset(a) == multiset(b)
    ensures Tally(a, key) == Tally(b, key)
  {
    hide Tally;
    var m, n := Tally(a, key), Tally(b, key);
    forall k | k in m ensures k in n && m[k] == n[k] {
      CountIgnoresOrder(a, b, key, k);
    }
    forall k | k in n ensures k in m {
      CountIgnoresOrder(a, b, key, k);
    }
  }

  lemma {:induction false} BumpedFramesHas(m: map<string, int>, frames: seq<string>, n: nat, weight: int, f: string)
    requires n <= |frames|
    ensures f in BumpedFrames(m, frames, n, weight) <==> f in m || f in frames[..n]
  {
    if n > 0 {
      BumpedFramesHas(m, frames, n - 1, weight, f);
      assert frames[..n] == frames[..n - 1] + [frames[n - 1]];
      if frames[n - 1] in frames[..n - 1] {
        BumpedFramesHas(m, frames, n - 1, weight, frames[n - 1]);
      }
    }
  }

  lemma {:induction false} FramesHaveLines(lines: seq<Line>, f: string)
    ensures f in TallyFrames(lines) <==> exists l :: l in lines && f in l.frames
  {
    if lines != [] {
      var last := |lines| - 1;
      FramesHaveLines(lines[..last], f);
      BumpedFramesHas(TallyFrames(lines[..last]), lines[last].frames, |lines[last].frames|, lines[last].weight, f);
      assert lines[last].frames[..|lines[last].frames|] == lines[last].frames;
      assert lines == lines[..last] + [lines[last]];
    }
  }

  lemma FramesIgnoreOrder(a: seq<Line>, b: seq<Line>)
    requires multiset(a) == multiset(b)
    ensures TallyFrames(a) == TallyFrames(b)
  {
    hide TallyFrames;
    SameLines(a, b);
    forall f
      ensures (f in TallyFrames(a) <==> f in TallyFrames(b)) && Get(TallyFrames(a), f) == Get(TallyFrames(b), f)
    {
      FramesHaveLines(a, f);
      FramesHaveLines(b, f);
      FramesAreWeight(a, f);
      FramesAreWeight(b, f);
      WeightIgnoresOrder(a, b, (l: Line) => f in l.frames);
    }
  }

  lemma {:induction false} TotalIsWeight(lines: seq<Line>)
    ensures Total(lines) == WeightOf(lines, (l: Line) => true)
  {
    if lines != [] {
      TotalIsWeight(lines[..|lines| - 1]);
    }
  }

  lemma {:induction false} MaxDepthIsGreatest(lines: seq<Line>)
    ensures forall l :: l in lines ==> |l.frames| <= MaxDepth(lines)
    ensures MaxDepth(lines) == 0 || exists l :: l in lines && |l.frames| == MaxDepth(lines)
  {
    if lines != [] {
      var last := |lines| - 1;
      MaxDepthIsGreatest(lines[..last]);
      assert lines == lines[..last] + [lines[last]];
      assert lines[last] in lines;
    }
  }

  /** The whole summary is the same for every order of the lines. */
  lemma SummaryIgnoresOrder(a: seq<Line>, b: seq<Line>)
    requires multiset(a) == multiset(b)
    ensures SummaryOf(a) == SummaryOf(b)
  {
    hide Tally, TallyFrames, MaxDepth, Total, MissingThread;
    TallyIgnoresOrder(a, b, RoleOf);
    TallyIgnoresOrder(a, b, Leaf);
    TallyIgnoresOrder(a, b, StackOf);
    FramesIgnoreOrder(a, b);
    TotalIsWeight(a);
    TotalIsWeight(b);
    WeightIgnoresOrder(a, b, (l: Line) => true);
    MissingIsUnattributed(a);
    MissingIsUnattributed(b);
    SameLines(a, b);
    MaxDepthIsGreatest(a);
    MaxDepthIsGreatest(b);
    assert |a| == |multiset(a)| && |b| == |multiset(b)|;
  }

  /** The ranked lists do not depend on how the entries were listed. */
  lemma OneTop(top: seq<Ranked>, top': seq<Ranked>, entries: seq<Ranked>, entries': seq<Ranked>, limit: nat)
    requires IsTop(top, entries, limit) && IsTop(top', entries', limit)
    requires forall x :: x in entries <==> x in entries'
    ensures top == top'
  {
    var full :| IsRanked(full) && (forall x :: x in full <==> x in entries)
                && top == if limit <= |full| then full[..limit] else full;
    var full' :| IsRanked(full') && (forall x :: x in full' <==> x in entries')
                 && top' == if limit <= |full'| then full'[..limit] else full';
    OneRanking(full, full');
  }

  /** The ranked leaves and frames do not depend on the order of the lines, nor on how their entries were listed. */
  lemma RankingIgnoresLineOrder(a: seq<Line>, b: seq<Line>, limit: nat, leaves: seq<Ranked>, leaves': seq<Ranked>,
                                topLeaves: seq<Ranked>, topLeaves': seq<Ranked>, frames: seq<Ranked>,
                                frames': seq<Ranked>, topFrames: seq<Ranked>, topFrames': seq<Ranked>)
    requires multiset(a) == multiset(b)
    requires Enumerates(leaves, SummaryOf(a).leaves) && Enumerates(leaves', SummaryOf(b).leaves)
    requires IsTop(topLeaves, leaves, limit) && IsTop(topLeaves', leaves', limit)
    requires Enumerates(frames, SummaryOf(a).inclusive) && Enumerates(frames', SummaryOf(b).inclusive)
    requires IsTop(topFrames, frames, limit) && IsTop(topFrames', frames', limit)
    ensures topLeaves == topLeaves' && topFrames == topFrames'
  {
    hide IsTop, SummaryOf;
    SummaryIgnoresOrder(a, b);
    OneTop(topLeaves, topLeaves', leaves, leaves', limit);
    OneTop(topFrames, topFrames', frames, frames', limit);
  }
}
