/**
  That answers get through: a response that is packed and published by its
  holder is sent by the next pass of the drain, if nothing comes between.
*/
module RingProgress {
  import opened Wrappers
  import opened SlotLayout
  import opened ResponseRing
  import opened RingInvariant
  import opened RingTheorems
  import opened RingDelivery
  import opened ClaimScan
  import opened Numbers
  import Handles

  // ------------------------------------------------ runs that leave the table

  /** The request table is left alone between two states. */
  ghost predicate TableRests(a: Ring, b: Ring) {
    && b.requests == a.requests && |a.log| <= |b.log| && b.log[..|a.log|] == a.log
    && forall k :: |a.log| <= k < |b.log| ==> !b.log[k].DidInstall? && !b.log[k].DidRemove?
  }

  ghost predicate RunsTo(g: Geometry, a: Ring, b: Ring) {
    exists steps :: Runs(g, a, steps, b)
  }

  /** The ring can get from one state to the other without touching the table. */
  ghost predicate Becomes(g: Geometry, a: Ring, b: Ring) {
    Reachable(g, a) && Reachable(g, b) && RunsTo(g, a, b) && TableRests(a, b)
  }

  lemma RestsOn(a: Ring, b: Ring, c: Ring)
    requires TableRests(a, b) && TableRests(b, c)
    ensures TableRests(a, c)
  {
    assert c.log[..|a.log|] == c.log[..|b.log|][..|a.log|];
    forall k | |a.log| <= k < |c.log| ensures !c.log[k].DidInstall? && !c.log[k].DidRemove? {
      if k < |b.log| {
        assert c.log[..|b.log|][k] == b.log[k];
      }
    }
  }

  lemma GetsOn(g: Geometry, a: Ring, b: Ring, c: Ring)
    requires RunsTo(g, a, b) && RunsTo(g, b, c)
    ensures RunsTo(g, a, c)
  {
    hide Runs;
    var first :| Runs(g, a, first, b);
    var second :| Runs(g, b, second, c);
    RunsJoin(g, a, first, b, second, c);
  }

  lemma BecomesOn(g: Geometry, a: Ring, b: Ring, c: Ring)
    requires Becomes(g, a, b) && Becomes(g, b, c)
    ensures Becomes(g, a, c)
  {
    hide Reachable, RunsTo, TableRests;
    GetsOn(g, a, b, c);
    RestsOn(a, b, c);
  }

  lemma {:induction false} TableIs(log: seq<Event>, n: nat, k: nat)
    requires n <= k <= |log| && forall j :: n <= j < k ==> !log[j].DidInstall? && !log[j].DidRemove?
    ensures TableOf(log[..k]) == TableOf(log[..n])
    decreases k
  {
    if n < k {
      TableIs(log, n, k - 1);
      assert log[..k][..k - 1] == log[..k - 1];
      assert log[..k][k - 1] == log[k - 1];
    }
  }

  /** Any step but one of the table's own. */
  lemma StepBecomes(g: Geometry, s: Ring, step: Step)
    requires Reachable(g, s) && Enabled(s, step) && !step.Install? && !step.Remove?
    ensures Becomes(g, s, Next(g, s, step))
  {
    hide Reachable, ClientEffect, DrainEffectOf, ClientOk, RespectsOwners, KeepsBooks;
    var s' := Next(g, s, step);
    ReachNext(g, s, step);
    assert Runs(g, s, [step], s') by {
      assert [step][1..] == [];
    }
    if step.ClientStep? {
      ClientIsOk(g, s, step.client);
      GeometryIsValid(g, s);
      ClientLegal(g, s, s.clients[step.client], step.action);
    } else if step.DrainStep? && DrainEffectOf(g, s).event.Some? {
      DrainLogsRouted(g, s);
    }
  }

  lemma GeometryIsValid(g: Geometry, s: Ring)
    requires Reachable(g, s)
    ensures g.Valid() && |s.slots| == g.capacity && 0 < |s.slots| <= UINT16_MAX && s.requests == TableOf(s.log)
    ensures DrainerOk(s)
  {
    hide Owned, Tickets, Counts, PassOk, Reachable, TableOf;
    ReachableInv(g, s);
  }

  // ---------------------------------------------------------- publishing

  /** Client c holds a handle and stands there. */
  ghost predicate Holds(s: Ring, c: nat, o: Hold, at: HoldStep) {
    c < |s.clients| && s.clients[c] == With(o, at)
  }

  ghost function SlotOf(o: Hold): int {
    Handles.IndexField(o.handle) - 1
  }

  lemma HolderPacks(g: Geometry, s: Ring, c: nat, o: Hold, d: SlotData) returns (s': Ring)
    requires Reachable(g, s) && Holds(s, c, o, Idle)
    ensures Becomes(g, s, s') && Holds(s', c, o.(packed := d), Idle)
    ensures s'.accepts == s.accepts && s'.drainer == s.drainer
  {
    hide Becomes;
    ClientIsOk(g, s, c);
    StepBecomes(g, s, ClientStep(c, Pack(d)));
    s' := Next(g, s, ClientStep(c, Pack(d)));
  }

  /** One operation of a publish whose data is valid, up to its increment. */
  lemma PublishSteps(g: Geometry, s: Ring, c: nat, o: Hold, at: HoldStep) returns (s': Ring)
    requires Reachable(g, s) && s.accepts && Holds(s, c, o, at)
    requires at.Idle? || at.PublishLookup? || at.PublishLoadAccepts? || at.PublishValidate?
    requires SlotOf(o) >= 0 && SlotDataValid(g, SlotOf(o), o.packed)
    ensures Becomes(g, s, s') && Holds(s', c, o, PublishPath(at)) && s'.accepts && s'.drainer == s.drainer
  {
    hide Becomes, SlotDataValid;
    ClientIsOk(g, s, c);
    StepBecomes(g, s, ClientStep(c, Publish));
    s' := Next(g, s, ClientStep(c, Publish));
  }

  /** From the increment to the end of the call: the slot is READY. */
  lemma PublishLands(g: Geometry, s: Ring, c: nat, o: Hold) returns (s': Ring)
    requires Reachable(g, s) && Holds(s, c, o, PublishCountReady)
    ensures Becomes(g, s, s') && s'.drainer == s.drainer && |s'.slots| == |s.slots| && 0 <= SlotOf(o) < |s.slots|
    ensures s'.slots[SlotOf(o)].state.Ready? && s'.slots[SlotOf(o)].data == o.packed
            && s'.slots[SlotOf(o)].ticket == o.ticket
  {
    hide Becomes, Reachable;
    var s1 := PublisherCounts(g, s, c, o);
    ReachesOn(g, s, s1);
    s' := PublisherExchanges(g, s1, c, o);
    BecomesOn(g, s, s1, s');
  }

  lemma PublisherCounts(g: Geometry, s: Ring, c: nat, o: Hold) returns (s': Ring)
    requires Reachable(g, s) && Holds(s, c, o, PublishCountReady)
    ensures Becomes(g, s, s') && Holds(s', c, o, PublishCas) && s'.drainer == s.drainer && s'.slots == s.slots
  {
    hide Becomes, Reachable;
    StepBecomes(g, s, ClientStep(c, Publish));
    s' := Next(g, s, ClientStep(c, Publish));
  }

  lemma PublisherExchanges(g: Geometry, s: Ring, c: nat, o: Hold) returns (s': Ring)
    requires Reachable(g, s) && Holds(s, c, o, PublishCas)
    ensures Becomes(g, s, s') && s'.drainer == s.drainer && |s'.slots| == |s.slots| && 0 <= SlotOf(o) < |s.slots|
    ensures s'.slots[SlotOf(o)].state.Ready? && s'.slots[SlotOf(o)].data == o.packed
            && s'.slots[SlotOf(o)].ticket == o.ticket
  {
    hide Becomes, Reachable;
    ClientIsOk(g, s, c);
    StepBecomes(g, s, ClientStep(c, Publish));
    s' := Next(g, s, ClientStep(c, Publish));
  }

  lemma ReachesOn(g: Geometry, a: Ring, b: Ring)
    requires Becomes(g, a, b)
    ensures Reachable(g, b)
  {
  }

  /** A holder packs valid data and publishes it while the ring accepts. */
  lemma HolderPublishes(g: Geometry, s: Ring, c: nat, o: Hold, d: SlotData) returns (s': Ring)
    requires Reachable(g, s) && s.accepts && Holds(s, c, o, Idle)
    requires SlotOf(o) >= 0 && SlotDataValid(g, SlotOf(o), d)
    ensures Becomes(g, s, s') && s'.drainer == s.drainer && 0 <= SlotOf(o) < |s'.slots|
    ensures s'.slots[SlotOf(o)].state.Ready? && s'.slots[SlotOf(o)].data == d
            && s'.slots[SlotOf(o)].ticket == o.ticket
  {
    hide Becomes, SlotDataValid, Reachable;
    var p := o.(packed := d);
    var s0 := HolderPacks(g, s, c, o, d);
    ReachesOn(g, s, s0);
    var s1 := PublishSteps(g, s0, c, p, Idle);
    BecomesOn(g, s, s0, s1);
    ReachesOn(g, s, s1);
    var s2 := PublishSteps(g, s1, c, p, PublishLookup);
    BecomesOn(g, s, s1, s2);
    ReachesOn(g, s, s2);
    var s3 := PublishSteps(g, s2, c, p, PublishLoadAccepts);
    BecomesOn(g, s, s2, s3);
    ReachesOn(g, s, s3);
    var s4 := PublishSteps(g, s3, c, p, PublishValidate);
    BecomesOn(g, s, s3, s4);
    ReachesOn(g, s, s4);
    s' := PublishLands(g, s4, c, p);
    BecomesOn(g, s, s4, s');
  }

  // ------------------------------------------------------------ draining

  /** How many operations a pass has left at most. */
  function Left(s: Ring): nat {
    var n := |s.slots|;
    match s.drainer
    case Resting => 0
    case LoadReady => 4 * n + 5
    case Scan(i) => if i <= n then 4 * (n - i) + 4 else 0
    case Deliver(i) => if i < n then 4 * (n - i) + 3 else 0
    case StoreFree(i) => if i < n then 4 * (n - i) + 2 else 0
    case UncountReady(i) => if i < n then 4 * (n - i) + 1 else 0
  }

  /** The drainer, left to itself, ends its pass. */
  lemma {:induction false} PassEnds(g: Geometry, s: Ring) returns (s': Ring)
    requires Reachable(g, s)
    ensures Becomes(g, s, s') && s'.drainer.Resting?
    decreases Left(s)
  {
    hide Becomes, Reachable, Route;
    if s.drainer.Resting? {
      s' := s;
      StaysAsItIs(g, s);
    } else {
      GeometryIsValid(g, s);
      StepBecomes(g, s, DrainStep);
      var mid := Next(g, s, DrainStep);
      ReachesOn(g, s, mid);
      s' := PassEnds(g, mid);
      BecomesOn(g, s, mid, s');
    }
  }

  lemma StaysAsItIs(g: Geometry, s: Ring)
    requires Reachable(g, s)
    ensures Becomes(g, s, s)
  {
    assert Runs(g, s, [], s);
  }

  /**
    The holder of a handle packs and publishes an answer that lies in its slot,
    and the drain makes a pass: the answer is read, and sent exactly when its
    request is registered.
  */
  lemma AnswerArrives(g: Geometry, s: Ring, c: nat, o: Hold, d: SlotData) returns (s': Ring, k: nat)
    requires Reachable(g, s) && s.accepts && s.drainer.Resting? && Holds(s, c, o, Idle)
    requires 0 <= SlotOf(o) < g.capacity && OwnsItsRanges(g, SlotOf(o), d)
    ensures Becomes(g, s, s') && s'.drainer.Resting? && |s.log| <= k < |s'.log|
    ensures s'.log[k].DidRead? && s'.log[k].ticket == o.ticket && s'.log[k].data == d
    ensures forall ctx: nat :: s'.log[k].sentTo == Some(ctx) <==> IsRegistered(s.requests, d, ctx)
  {
    hide Becomes, SlotDataValid, OwnsItsRanges, Reachable, IsRegistered, TableOf, DrainerOk;
    GeometryIsValid(g, s);
    ChecksExact(g, SlotOf(o), d);
    var published := HolderPublishes(g, s, c, o, d);
    ReachesOn(g, s, published);
    StepBecomes(g, published, DrainStep);
    var ready := Next(g, published, DrainStep);
    assert ready.slots == published.slots && ready.drainer.LoadReady?;
    BecomesOn(g, s, published, ready);
    ReachesOn(g, s, ready);
    s', k := PassReads(g, ready, SlotOf(o));
    BecomesOn(g, s, ready, s');
    ReadUnderTheSameTable(g, s, ready, s', k);
  }

  lemma PassReads(g: Geometry, ready: Ring, i: nat) returns (s': Ring, k: nat)
    requires Reachable(g, ready) && ready.drainer.LoadReady? && i < |ready.slots| && ready.slots[i].state.Ready?
    ensures Becomes(g, ready, s') && s'.drainer.Resting? && |ready.log| <= k < |s'.log| && s'.log[k].DidRead?
    ensures s'.log[k].ticket == ready.slots[i].ticket && s'.log[k].data == ready.slots[i].data
    ensures forall ctx: nat ::
      s'.log[k].sentTo == Some(ctx) <==> IsRegistered(TableOf(s'.log[..k]), ready.slots[i].data, ctx)
  {
    hide Reachable, IsRegistered, TableOf, DrainNext, Runs, TableRests;
    StepBecomes(g, ready, DrainStep);
    var mid := DrainNext(g, ready);
    s' := PassEnds(g, mid);
    BecomesOn(g, ready, mid, s');
    var steps :| Runs(g, mid, steps, s');
    k := PassAnswersReady(g, ready, steps, s', i);
  }

  lemma ReadUnderTheSameTable(g: Geometry, s: Ring, ready: Ring, s': Ring, k: nat)
    requires Becomes(g, s, ready) && Becomes(g, s, s') && |ready.log| <= k < |s'.log|
    ensures |s.log| <= k && TableOf(s'.log[..k]) == s.requests
  {
    hide Reachable, RunsTo, TableOf;
    GeometryIsValid(g, s);
    TableIs(s'.log, |s.log|, k);
  }

  // ------------------------------------------------- from request to answer

  /** A client's own steps leave the drainer, the gate and the table alone. */
  lemma {:induction false} OwnStepsRest(g: Geometry, s: Ring, c: nat, n: nat, s': Ring)
    requires Reachable(g, s) && c < |s.clients| && Runs(g, s, OwnSteps(c, n), s')
    ensures Becomes(g, s, s') && s'.drainer == s.drainer && s'.accepts == s.accepts
    decreases n
  {
    hide Becomes, Reachable, ClientEffect;
    if n == 0 {
      StaysAsItIs(g, s);
    } else {
      var step := ClientStep(c, Publish);
      assert OwnSteps(c, n)[1..] == OwnSteps(c, n - 1);
      StepBecomes(g, s, step);
      var mid := Next(g, s, step);
      ReachesOn(g, s, mid);
      OwnStepsRest(g, mid, c, n - 1, s');
      BecomesOn(g, s, mid, s');
    }
  }

  lemma {:induction false} RunKeepsCursor(g: Geometry, a: Ring, steps: seq<Step>, b: Ring)
    requires Runs(g, a, steps, b) && a.cursor < WORDS
    ensures b.cursor < WORDS
    decreases |steps|
  {
    hide ClientEffect, DrainEffectOf;
    if steps != [] {
      RunKeepsCursor(g, Next(g, a, steps[0]), steps[1..], b);
    }
  }

  lemma CursorIsAWord(g: Geometry, s: Ring)
    requires Reachable(g, s)
    ensures s.cursor < WORDS
  {
    hide Runs;
    var start, steps :| Initial(g, start) && Runs(g, start, steps, s);
    RunKeepsCursor(g, start, steps, s);
  }

  /** The requests that may be registered: a number and a module that are not zero, and a context in use nowhere. */
  ghost predicate MayRegister(s: Ring, q: Word, r: Registration) {
    q != 0 && r.moduleId != 0 && q !in s.requests && forall p :: p in s.requests ==> s.requests[p].ctx != r.ctx
  }

  /** An answer to the request, whichever slot it is given, lies in that slot. */
  ghost predicate Answers(g: Geometry, answer: nat -> SlotData, q: Word, moduleId: Word) {
    forall i: nat :: i < g.capacity ==>
      OwnsItsRanges(g, i, answer(i)) && answer(i).requestSeq == q && answer(i).moduleId == moduleId
  }

  lemma ClaimSucceeds(g: Geometry, s: Ring, c: nat) returns (s': Ring, o: Hold)
    requires Reachable(g, s) && s.accepts && c < |s.clients| && s.clients[c].Outside?
    requires |s.slots| > 0 && CoversRing(s.cursor, |s.slots|)
    requires exists i :: 0 <= i < |s.slots| && s.slots[i].state.Free?
    ensures Becomes(g, s, s') && s'.accepts && s'.drainer == s.drainer && Holds(s', c, o, Idle)
    ensures 0 <= SlotOf(o) < g.capacity
  {
    hide Becomes, Reachable, Runs, Claim;
    GeometryIsValid(g, s);
    CursorIsAWord(g, s);
    var n;
    n, s' := ClaimAlone(g, s, c);
    OwnStepsRest(g, s, c, n, s');
    ReachesOn(g, s, s');
    ClientIsOk(g, s', c);
    o := s'.clients[c].hold;
  }

  /**
    In any accepting ring with a FREE slot and the drain at rest, a request that
    may be registered can be registered, claimed for, answered and drained, and
    the answer is sent to the request's context.
  */
  lemma RequestIsAnswered(g: Geometry, s: Ring, c: nat, q: Word, r: Registration, answer: nat -> SlotData)
    returns (s': Ring, k: nat)
    requires Reachable(g, s) && s.accepts && s.drainer.Resting? && c < |s.clients| && s.clients[c].Outside?
    requires |s.slots| > 0 && CoversRing(s.cursor, |s.slots|)
    requires exists i :: 0 <= i < |s.slots| && s.slots[i].state.Free?
    requires MayRegister(s, q, r) && Answers(g, answer, q, r.moduleId)
    ensures RunsTo(g, s, s') && |s.log| < k < |s'.log| && s'.log[|s.log|] == DidInstall(q, r)
    ensures s'.log[k].DidRead? && (exists i: nat :: i < g.capacity && s'.log[k].data == answer(i))
    ensures s'.log[k].sentTo == Some(r.ctx)
  {
    hide Reachable, Runs, OwnsItsRanges, CoversRing, TableRests, RunsTo;
    ReachNext(g, s, Install(q, r));
    var installed := Next(g, s, Install(q, r));
    OneStep(g, s, Install(q, r));
    var claimed, o := ClaimSucceeds(g, installed, c);
    var i: nat := SlotOf(o);
    s', k := AnswerArrives(g, claimed, c, o, answer(i));
    BecomesOn(g, installed, claimed, s');
    GetsOn(g, s, installed, s');
    KeptTable(installed, claimed);
    KeptTable(installed, s');
    assert IsRegistered(claimed.requests, answer(i), r.ctx);
  }

  lemma OneStep(g: Geometry, s: Ring, step: Step)
    requires Enabled(s, step)
    ensures RunsTo(g, s, Next(g, s, step))
  {
    hide Next;
    assert [step][1..] == [];
    assert Runs(g, s, [step], Next(g, s, step));
  }

  lemma KeptTable(a: Ring, b: Ring)
    requires TableRests(a, b)
    ensures b.requests == a.requests && |a.log| <= |b.log|
    ensures forall k :: 0 <= k < |a.log| ==> b.log[k] == a.log[k]
  {
    forall k | 0 <= k < |a.log| ensures b.log[k] == a.log[k] {
      assert b.log[..|a.log|][k] == b.log[k];
    }
  }

  /** The same answer, when its request has been cleaned up first, is read and sent to nobody. */
  lemma LateAnswerIsDropped(g: Geometry, s: Ring, c: nat, o: Hold, d: SlotData) returns (s': Ring, k: nat)
    requires Reachable(g, s) && s.accepts && s.drainer.Resting? && Holds(s, c, o, Idle)
    requires 0 <= SlotOf(o) < g.capacity && OwnsItsRanges(g, SlotOf(o), d) && d.requestSeq in s.requests
    ensures RunsTo(g, s, s') && |s.log| < k < |s'.log| && s'.log[|s.log|] == DidRemove(d.requestSeq)
    ensures s'.log[k] == DidRead(o.ticket, d, None)
  {
    hide Reachable, Runs, OwnsItsRanges, TableRests, RunsTo;
    ReachNext(g, s, Remove(d.requestSeq));
    var removed := Next(g, s, Remove(d.requestSeq));
    OneStep(g, s, Remove(d.requestSeq));
    s', k := AnswerArrives(g, removed, c, o, d);
    GetsOn(g, s, removed, s');
    KeptTable(removed, s');
    var sentTo := s'.log[k].sentTo;
    var ctx := if sentTo.Some? then sentTo.value else 0;
    assert sentTo.Some? ==> sentTo == Some(ctx);
    assert !IsRegistered(removed.requests, d, ctx);
  }

  // ------------------------------------------------------- what is registered

  /** A registration at position k had a number, a module, and a request and a context that were new to the table. */
  ghost predicate InstalledRightly(log: seq<Event>, k: nat)
    requires k < |log|
  {
    log[k].DidInstall? ==>
      var q, r, table := log[k].requestSeq, log[k].registration, TableOf(log[..k]);
      q != 0 && r.moduleId != 0 && q !in table && forall p :: p in table ==> table[p].ctx != r.ctx
  }

  ghost predicate AllInstalledRightly(log: seq<Event>) {
    forall k :: 0 <= k < |log| ==> InstalledRightly(log, k)
  }

  lemma AppendInstalled(log: seq<Event>, e: Event)
    requires AllInstalledRightly(log) && InstalledRightly(log + [e], |log|)
    ensures AllInstalledRightly(log + [e])
  {
    hide TableOf;
    forall k | 0 <= k < |log| ensures InstalledRightly(log + [e], k) {
      assert InstalledRightly(log, k);
      assert (log + [e])[..k] == log[..k];
    }
  }

  lemma StepInstalls(g: Geometry, s: Ring, step: Step)
    requires Reachable(g, s) && Enabled(s, step) && AllInstalledRightly(s.log)
    ensures AllInstalledRightly(Next(g, s, step).log)
  {
    hide Reachable, AllInstalledRightly, TableOf, RunsTo, ClientEffect, DrainEffectOf;
    GeometryIsValid(g, s);
    var log' := Next(g, s, step).log;
    if !step.Install? && !step.Remove? {
      StepBecomes(g, s, step);
    }
    if log' != s.log {
      assert log'[..|s.log|] == s.log;
      assert log' == s.log + [log'[|s.log|]];
      AppendInstalled(s.log, log'[|s.log|]);
    }
  }

  lemma {:induction false} RunInstalls(g: Geometry, a: Ring, steps: seq<Step>, b: Ring)
    requires Reachable(g, a) && Runs(g, a, steps, b) && AllInstalledRightly(a.log)
    ensures AllInstalledRightly(b.log)
    decreases |steps|
  {
    hide Reachable, Next, AllInstalledRightly;
    if steps != [] {
      StepInstalls(g, a, steps[0]);
      ReachNext(g, a, steps[0]);
      RunInstalls(g, Next(g, a, steps[0]), steps[1..], b);
    }
  }

  /**
    Every registration was of a request with a number, for a module, with a
    request and a context that were not registered at that moment.
  */
  lemma RegistrationsAreNew(g: Geometry, s: Ring, k: nat)
    requires Reachable(g, s) && k < |s.log| && s.log[k].DidInstall?
    ensures var q, r, table := s.log[k].requestSeq, s.log[k].registration, TableOf(s.log[..k]);
            q != 0 && r.moduleId != 0 && q !in table && forall p :: p in table ==> table[p].ctx != r.ctx
  {
    hide Runs, TableOf;
    var start, steps :| Initial(g, start) && Runs(g, start, steps, s);
    StartIsReachable(g, start);
    RunInstalls(g, start, steps, s);
    assert InstalledRightly(s.log, k);
  }

  lemma StartIsReachable(g: Geometry, start: Ring)
    requires Initial(g, start)
    ensures Reachable(g, start)
  {
    assert Runs(g, start, [], start);
  }

  /** Once claims are refused they stay refused, and no request is registered any more. */
  lemma {:induction false} RefusalIsFinal(g: Geometry, a: Ring, steps: seq<Step>, b: Ring)
    requires Runs(g, a, steps, b) && !a.accepts
    ensures !b.accepts && forall q :: q in b.requests ==> q in a.requests && b.requests[q] == a.requests[q]
    decreases |steps|
  {
    hide ClientEffect, DrainEffectOf;
    if steps != [] {
      RefusalIsFinal(g, Next(g, a, steps[0]), steps[1..], b);
    }
  }
}
