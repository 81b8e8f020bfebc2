/** Whole-run properties of the response ring. */
module RingTheorems {
  import opened Wrappers
  import opened SlotLayout
  import opened ResponseRing
  import opened RingInvariant
  import opened Counting

  predicate IsReady(slot: Slot) { slot.state.Ready? }

  predicate IsDraining(slot: Slot) { slot.state.Draining? }

  /**
    In every reachable state the claimed counter plus the claims not yet counted
    is the number of CLAIMED slots plus the decrements still due, the ready
    counter is the READY and DRAINING slots plus the publishers past their
    increment plus the drainer's decrement still due, and neither is negative.
  */
  lemma CounterBalance(g: Geometry, s: Ring)
    requires Reachable(g, s)
    ensures s.claimed + Count(s.clients, NotYetCounted) == Count(s.slots, IsClaimed) + Count(s.clients, PendingUncount)
    ensures s.ready == Count(s.slots, IsReady) + Count(s.slots, IsDraining) + Count(s.clients, PastReadyIncrement)
                     + (if s.drainer.UncountReady? then 1 else 0)
    ensures 0 <= s.claimed && 0 <= s.ready
  {
    ReachableInv(g, s);
    CountSplit(s.clients, Owns, NotYetCounted, HoldsHandle);
    CountSplit(s.clients, Counted, HoldsHandle, PendingUncount);
    CountSplit(s.slots, IsReadyOrDraining, IsReady, IsDraining);
  }

  /** Whoever is about to decrement a counter finds it positive. */
  lemma NoUnderflow(g: Geometry, s: Ring, step: Step)
    requires Reachable(g, s) && Enabled(s, step)
    ensures 0 <= Next(g, s, step).claimed && 0 <= Next(g, s, step).ready
  {
    ReachableInv(g, s);
    StepKeepsInv(g, s, step);
  }

  /**
    A drain call returns early exactly when no slot is READY and no publisher is
    between its increment and its exchange.
  */
  lemma EarlyReturnSkipsNothing(g: Geometry, s: Ring)
    requires Reachable(g, s) && s.drainer.LoadReady?
    ensures DrainNext(g, s).drainer.Resting? <==>
      && (forall i :: 0 <= i < |s.slots| ==> !s.slots[i].state.Ready?)
      && (forall c :: 0 <= c < |s.clients| ==> !PastReadyIncrement(s.clients[c]))
  {
    hide Owned, Tickets, PassOk, Routed;
    ReachableInv(g, s);
    if s.ready == 0 {
      NoReadyWhenZero(s);
    } else if (forall i :: 0 <= i < |s.slots| ==> !s.slots[i].state.Ready?)
              && (forall c :: 0 <= c < |s.clients| ==> !PastReadyIncrement(s.clients[c])) {
      CountPositive(s.slots, IsReadyOrDraining);
      CountPositive(s.clients, PastReadyIncrement);
    }
  }

  // -------------------------------------------------------------- handles

  /**
    Every claim lives one life: it is aborted, or the drainer takes it once,
    reads exactly the data its owner published, sends it at most once, and frees
    it.  No claim is lost: one whose life is not over sits in exactly one slot.
  */
  lemma EachClaimResolvedOnce(g: Geometry, s: Ring, t: nat)
    requires Reachable(g, s)
    ensures Lifecycle(History(s.log, t), t)
    ensures t >= s.tickets ==> History(s.log, t) == []
    ensures t < s.tickets ==>
      (if Closed(History(s.log, t), t) then forall i :: !LiveAt(s, i, t)
       else (exists i :: LiveAt(s, i, t)) && forall i, j :: LiveAt(s, i, t) && LiveAt(s, j, t) ==> i == j)
  {
    ReachableInv(g, s);
    forall i | LiveAt(s, i, t) ensures Lifecycle(History(s.log, t), t) && !Closed(History(s.log, t), t) {
      assert LiveSlot(s, i);
    }
  }

  /** A slot between its claim and its return to FREE is written only by its owner or by the drainer's state changes. */
  lemma OnlyOwnerWrites(g: Geometry, s: Ring, step: Step, i: nat)
    requires Reachable(g, s) && Enabled(s, step)
    requires i < |s.slots| && !s.slots[i].state.Free? && Next(g, s, step).slots[i] != s.slots[i]
    ensures || (step.ClientStep? && Owns(s.clients[step.client]) && OwnIndex(s.clients[step.client]) == i)
            || (step.DrainStep? && Next(g, s, step).slots[i].data == s.slots[i].data)
  {
    ReachableInv(g, s);
    match step
    case ClientStep(c, a) =>
      assert ClientOk(s.slots, s.clients[c]);
      ClientLegal(g, s, s.clients[c], a);
    case DrainStep => DrainWritesLegally(g, s);
    case _ =>
  }

  /** While a client holds a handle its slot keeps the data it packed, and no publish or abort of it can miss. */
  lemma HeldSlotIsIntact(g: Geometry, s: Ring, c: nat)
    requires Reachable(g, s) && c < |s.clients| && HoldsHandle(s.clients[c])
    ensures !s.clients[c].at.PublishUncountReady?
    ensures var o := s.clients[c].hold;
            && SlotFromHandle(s, o.handle).Some?
            && (var slot := s.slots[SlotFromHandle(s, o.handle).value];
                slot.state.Claimed? && slot.ticket == o.ticket && slot.data == o.packed)
  {
    ClientIsOk(g, s, c);
  }

  lemma ClientIsOk(g: Geometry, s: Ring, c: nat)
    requires Reachable(g, s) && c < |s.clients|
    ensures ClientOk(s.slots, s.clients[c]) && |s.slots| == g.capacity
  {
    hide DrainerOk, Tickets, Counts, PassOk, Routed, Reachable, ClientOk;
    ReachableInv(g, s);
  }

  /** Two live handles always differ. */
  lemma HeldHandlesDiffer(g: Geometry, s: Ring, c: nat, c': nat)
    requires Reachable(g, s) && c < |s.clients| && c' < |s.clients| && c != c'
    requires HoldsHandle(s.clients[c]) && HoldsHandle(s.clients[c'])
    ensures s.clients[c].hold.handle != s.clients[c'].hold.handle
  {
    ReachableInv(g, s);
    if c < c' {
      assert OwnIndex(s.clients[c]) != OwnIndex(s.clients[c']);
    } else {
      assert OwnIndex(s.clients[c']) != OwnIndex(s.clients[c]);
    }
  }

  // --------------------------------------------------------------- passes

  lemma {:induction false} AheadUntilFreed(g: Geometry, before: Ring, steps: seq<Step>, after: Ring, j: nat, t: nat)
    requires Inv(g, before) && Runs(g, before, steps, after) && j < |before.slots|
    requires AheadAt(before, j, t) || WasFreed(before, t)
    ensures |after.slots| == |before.slots| && (AheadAt(after, j, t) || WasFreed(after, t))
    decreases |steps|
  {
    hide Inv, AheadAt, WasFreed, Next;
    if steps != [] {
      StepKeepsInv(g, before, steps[0]);
      AheadStep(g, before, steps[0], j, t);
      AheadUntilFreed(g, Next(g, before, steps[0]), steps[1..], after, j, t);
    }
  }

  lemma AheadStep(g: Geometry, before: Ring, step: Step, j: nat, t: nat)
    requires Inv(g, before) && Enabled(before, step) && j < |before.slots|
    requires AheadAt(before, j, t) || WasFreed(before, t)
    ensures var after := Next(g, before, step);
            |after.slots| == |before.slots| && (AheadAt(after, j, t) || WasFreed(after, t))
  {
    hide Owned, DrainerOk, Tickets, Counts, PassOk, Routed, AheadAt, WasFreed, ClientEffect, DrainNext;
    match step {
      case ClientStep(c, a) => AheadThroughClient(g, before, c, a, j, t);
      case DrainStep => AheadThroughDrain(g, before, j, t);
      case Install(q, r) => AheadThroughTable(before, Next(g, before, step), DidInstall(q, r), j, t);
      case Remove(q) => AheadThroughTable(before, Next(g, before, step), DidRemove(q), j, t);
      case Refuse => AheadThroughRefusal(before, j, t);
    }
  }

  lemma AheadThroughRefusal(before: Ring, j: nat, t: nat)
    requires AheadAt(before, j, t) || WasFreed(before, t)
    ensures var after := before.(accepts := false); AheadAt(after, j, t) || WasFreed(after, t)
  {
  }

  lemma AheadThroughTable(before: Ring, after: Ring, e: Event, j: nat, t: nat)
    requires after == before.(requests := after.requests, log := before.log + [e]) && !Concerns(e, t)
    requires AheadAt(before, j, t) || WasFreed(before, t)
    ensures AheadAt(after, j, t) || WasFreed(after, t)
  {
    HistoryAppend(before.log, e, t);
  }

  lemma AheadThroughClient(g: Geometry, before: Ring, c: nat, a: Action, j: nat, t: nat)
    requires Inv(g, before) && c < |before.clients| && j < |before.slots|
             && (AheadAt(before, j, t) || WasFreed(before, t))
    ensures var after := Apply(before, c, ClientEffect(g, before, before.clients[c], a));
            |after.slots| == |before.slots| && (AheadAt(after, j, t) || WasFreed(after, t))
  {
    hide Owned, DrainerOk, LiveOk, PastOk, Counts, PassOk, Routed, ClientEffect, ClientOk, RespectsOwners, KeepsBooks,
      TellsStory, AheadAt, WasFreed;
    OwnedClient(before, c);
    ClientLegal(g, before, before.clients[c], a);
    EffectKeepsPassAt(before, c, ClientEffect(g, before, before.clients[c], a), j, t);
  }

  lemma AheadThroughDrain(g: Geometry, before: Ring, j: nat, t: nat)
    requires Inv(g, before) && j < |before.slots| && (AheadAt(before, j, t) || WasFreed(before, t))
    ensures var after := DrainNext(g, before);
            |after.slots| == |before.slots| && (AheadAt(after, j, t) || WasFreed(after, t))
  {
    hide Owned, DrainerOk, LiveOk, PastOk, Counts, PassOk, Routed, AheadAt, WasFreed, DrainEffectOf;
    PassGoesOnAt(g, before, j, t);
  }

  /**
    Every claim that is READY when a drain pass starts has been freed, exactly
    once, by the time the drainer rests again, whatever else runs meanwhile.
  */
  lemma PassFreesReady(g: Geometry, before: Ring, steps: seq<Step>, after: Ring, i: nat)
    requires Reachable(g, before) && before.drainer.LoadReady?
    requires Runs(g, DrainNext(g, before), steps, after) && after.drainer.Resting?
    requires i < |before.slots| && before.slots[i].state.Ready?
    ensures var h := History(after.log, before.slots[i].ticket);
            |h| == 5 && Lifecycle(h, before.slots[i].ticket) && h[4] == DidFree(before.slots[i].ticket)
            && h[3].data == before.slots[i].data
  {
    ReachableInv(g, before);
    if before.ready == 0 {
      NoReadyWhenZero(before);
      assert false;
    } else {
      var t := before.slots[i].ticket;
      var start := DrainNext(g, before);
      StepKeepsInv(g, before, DrainStep);
      assert AheadAt(start, i, t);
      AheadUntilFreed(g, start, steps, after, i, t);
      RunKeepsInv(g, start, steps, after);
      assert Closed(History(after.log, t), t) by {
        if exists j :: LiveAt(after, j, t) {
          var j :| LiveAt(after, j, t);
        }
      }
      HistoryPrefix(g, start, steps, after, t);
    }
  }

  /** A run only ever extends the history of a claim. */
  lemma {:induction false} HistoryPrefix(g: Geometry, before: Ring, steps: seq<Step>, after: Ring, t: nat)
    requires Runs(g, before, steps, after)
    ensures |History(before.log, t)| <= |History(after.log, t)|
    ensures History(after.log, t)[..|History(before.log, t)|] == History(before.log, t)
    decreases |steps|
  {
    hide History, Next;
    if steps != [] {
      var mid := Next(g, before, steps[0]);
      StepExtends(g, before, steps[0], t);
      HistoryPrefix(g, mid, steps[1..], after, t);
      var n := |History(before.log, t)|;
      assert History(after.log, t)[..n] == History(after.log, t)[..|History(mid.log, t)|][..n];
    }
  }

  lemma StepExtends(g: Geometry, s: Ring, step: Step, t: nat)
    requires Enabled(s, step)
    ensures |History(s.log, t)| <= |History(Next(g, s, step).log, t)|
    ensures History(Next(g, s, step).log, t)[..|History(s.log, t)|] == History(s.log, t)
  {
    hide History, ClientEffect, DrainEffectOf;
    match step
    case ClientStep(c, a) => HistoryAfter(s, c, ClientEffect(g, s, s.clients[c], a), t);
    case DrainStep => HistoryAfterDrain(s, DrainEffectOf(g, s), t);
    case Install(q, r) => HistoryAppend(s.log, DidInstall(q, r), t);
    case Remove(q) => HistoryAppend(s.log, DidRemove(q), t);
    case Refuse =>
  }

  // -------------------------------------------------------------- routing

  /** Every response sent went to the context then registered under the slot's module and request. */
  lemma SendsFollowRegistrations(g: Geometry, s: Ring, k: nat)
    requires Reachable(g, s) && k < |s.log|
    ensures SendRouted(s.log, k)
  {
    ReachableInv(g, s);
  }

  predicate InstallsContext(e: Event, ctx: nat) {
    e.DidInstall? && e.registration.ctx == ctx
  }

  ghost predicate Registered(table: map<Word, Registration>, ctx: nat) {
    exists q :: q in table && table[q].ctx == ctx
  }

  /** Once absent, a context stays absent until it is installed again. */
  lemma {:induction false} AbsentStays(log: seq<Event>, j: nat, k: nat, ctx: nat)
    requires j <= k <= |log| && !Registered(TableOf(log[..j]), ctx)
    requires forall i :: j <= i < k ==> !InstallsContext(log[i], ctx)
    ensures !Registered(TableOf(log[..k]), ctx)
    decreases k
  {
    if j < k {
      AbsentStays(log, j, k - 1, ctx);
      assert log[..k][..k - 1] == log[..k - 1];
      assert !InstallsContext(log[k - 1], ctx);
      forall q | q in TableOf(log[..k]) ensures TableOf(log[..k])[q].ctx != ctx {
        if q in TableOf(log[..k - 1]) {
          assert TableOf(log[..k - 1])[q].ctx != ctx;
        }
      }
    }
  }

  /** After a request's cleanup no later drain touches its context, unless it is installed anew. */
  lemma NoSendAfterCleanup(g: Geometry, s: Ring, j: nat, k: nat)
    requires Reachable(g, s) && j < k < |s.log| && s.log[j].DidRemove?
    requires s.log[j].requestSeq in TableOf(s.log[..j])
    requires var ctx := TableOf(s.log[..j])[s.log[j].requestSeq].ctx;
             forall i :: j < i < k ==> !InstallsContext(s.log[i], ctx)
    ensures s.log[k].DidRead? ==> s.log[k].sentTo != Some(TableOf(s.log[..j])[s.log[j].requestSeq].ctx)
  {
    ReachableInv(g, s);
    var q := s.log[j].requestSeq;
    var table := TableOf(s.log[..j]);
    var ctx := table[q].ctx;
    assert OneEach(table);
    assert s.log[..j + 1][..j] == s.log[..j];
    assert TableOf(s.log[..j + 1]) == table - {q};
    assert !Registered(TableOf(s.log[..j + 1]), ctx);
    AbsentStays(s.log, j + 1, k, ctx);
    assert SendRouted(s.log, k);
  }

  // ------------------------------------------------------------ quiescence

  /** No claim is under way that could still win a slot. */
  predicate CannotClaim(k: Client) {
    k.Outside? || k.LoadAccepts? || k.With?
  }

  /** Claims are refused, none is in flight, and the claimed counter has been read as zero. */
  ghost predicate Drying(s: Ring) {
    && !s.accepts && s.claimed == 0
    && forall c :: 0 <= c < |s.clients| ==> s.clients[c].Outside? || s.clients[c].LoadAccepts?
  }

  lemma ZeroClaimedIsDrying(g: Geometry, s: Ring)
    requires Inv(g, s) && !s.accepts && s.claimed == 0
    requires forall c :: 0 <= c < |s.clients| ==> CannotClaim(s.clients[c])
    ensures Drying(s)
  {
    CountPositive(s.clients, Counted);
    forall c | 0 <= c < |s.clients| ensures !Counted(s.clients[c]) {
    }
  }

  lemma DryingStep(g: Geometry, s: Ring, step: Step)
    requires Drying(s) && Enabled(s, step)
    ensures Drying(Next(g, s, step))
  {
    hide DrainEffectOf;
  }

  lemma {:induction false} DryingStays(g: Geometry, before: Ring, steps: seq<Step>, after: Ring)
    requires Drying(before) && Runs(g, before, steps, after)
    ensures Drying(after)
    decreases |steps|
  {
    hide Drying, Next, Enabled;
    if steps != [] {
      DryingStep(g, before, steps[0]);
      DryingStays(g, Next(g, before, steps[0]), steps[1..], after);
    }
  }

  /** Nothing is left in the ring: no publish or abort is part-way, and the drainer holds no slot. */
  ghost predicate Quiescent(s: Ring) {
    && (forall i :: 0 <= i < |s.slots| ==> s.slots[i].state.Free?)
    && (forall c :: 0 <= c < |s.clients| ==> s.clients[c].Outside? || s.clients[c].LoadAccepts?)
    && (s.drainer.Resting? || s.drainer.LoadReady? || s.drainer.Scan?)
  }

  /**
    The two reads of receiver destruction: once claims are refused and none is in
    flight, reading the claimed counter as zero and later the ready counter as
    zero means the ring is quiescent.
  */
  lemma ZeroReadsMeanQuiescent(g: Geometry, first: Ring, steps: seq<Step>, second: Ring)
    requires Reachable(g, first) && Runs(g, first, steps, second)
    requires !first.accepts && forall c :: 0 <= c < |first.clients| ==> CannotClaim(first.clients[c])
    requires first.claimed == 0 && second.ready == 0
    ensures Quiescent(second)
  {
    hide Reachable, Owned, Tickets, PassOk, Routed;
    ReachableInv(g, first);
    ZeroClaimedIsDrying(g, first);
    DryingStays(g, first, steps, second);
    RunKeepsInv(g, first, steps, second);
    NoReadyWhenZero(second);
    CountPositive(second.clients, Owns);
    CountPositive(second.slots, IsClaimed);
    forall i | 0 <= i < |second.slots| ensures second.slots[i].state.Free? {
      assert !IsClaimed(second.slots[i]);
    }
  }

  /** A publisher's next three operations: count the slot as ready, mark it, leave the claimed counter. */
  lemma PublisherLands(g: Geometry, s: Ring, c: nat, a: Action) returns (s': Ring)
    requires c < |s.clients| && s.clients[c].With? && s.clients[c].at.PublishCountReady?
    requires ClientOk(s.slots, s.clients[c])
    ensures Runs(g, s, [ClientStep(c, a), ClientStep(c, a), ClientStep(c, a)], s')
    ensures s'.claimed == s.claimed - 1 && |s'.slots| == |s.slots|
    ensures s'.slots[OwnIndex(s.clients[c])].state.Ready?
  {
    var step := ClientStep(c, a);
    var s1 := PublisherCounts(g, s, c, a);
    var s2 := PublisherMarks(g, s1, c, a);
    s' := Next(g, s2, step);
    ThreeSteps(g, s, step);
  }

  lemma PublisherCounts(g: Geometry, s: Ring, c: nat, a: Action) returns (s': Ring)
    requires c < |s.clients| && s.clients[c].With? && s.clients[c].at.PublishCountReady?
    ensures s' == Next(g, s, ClientStep(c, a))
    ensures s'.clients == s.clients[c := With(s.clients[c].hold, PublishCas)] && s'.slots == s.slots
    ensures s'.claimed == s.claimed
  {
    s' := Next(g, s, ClientStep(c, a));
  }

  lemma PublisherMarks(g: Geometry, s: Ring, c: nat, a: Action) returns (s': Ring)
    requires c < |s.clients| && s.clients[c].With? && s.clients[c].at.PublishCas?
    requires ClientOk(s.slots, s.clients[c])
    ensures s' == Next(g, s, ClientStep(c, a))
    ensures s'.clients == s.clients[c := With(s.clients[c].hold, PublishUncountClaim)]
    ensures |s'.slots| == |s.slots| && s'.slots[OwnIndex(s.clients[c])].state.Ready? && s'.claimed == s.claimed
  {
    s' := Next(g, s, ClientStep(c, a));
  }

  lemma ThreeSteps(g: Geometry, s: Ring, step: Step)
    requires Enabled(s, step) && Enabled(Next(g, s, step), step) && Enabled(Next(g, Next(g, s, step), step), step)
    ensures Runs(g, s, [step, step, step], Next(g, Next(g, Next(g, s, step), step), step))
  {
    var s1 := Next(g, s, step);
    assert [step, step, step][1..] == [step, step] && [step, step][1..] == [step] && [step][1..] == [];
    assert Runs(g, Next(g, s1, step), [step], Next(g, Next(g, s1, step), step));
  }

  /**
    Reading the counters in the other order proves nothing: a publisher that
    has yet to count its slot as ready hides its response from both reads.
  */
  lemma ReversedReadsMiss(g: Geometry, first: Ring, c: nat, a: Action)
    requires Reachable(g, first) && !first.accepts && first.ready == 0 && first.claimed == 1
    requires c < |first.clients| && first.clients[c].With? && first.clients[c].at.PublishCountReady?
    ensures exists steps, second ::
              Runs(g, first, steps, second) && second.claimed == 0 && !Quiescent(second)
  {
    ReachableInv(g, first);
    assert ClientOk(first.slots, first.clients[c]);
    var second := PublisherLands(g, first, c, a);
    assert !second.slots[OwnIndex(first.clients[c])].state.Free?;
  }

  // ------------------------------------------- the premises above can be met

  lemma {:induction false} RunsThen(g: Geometry, before: Ring, steps: seq<Step>, after: Ring, step: Step)
    requires Runs(g, before, steps, after) && Enabled(after, step)
    ensures Runs(g, before, steps + [step], Next(g, after, step))
    decreases |steps|
  {
    if steps == [] {
      assert ([step])[1..] == [];
      assert steps + [step] == [step];
    } else {
      RunsThen(g, Next(g, before, steps[0]), steps[1..], after, step);
      assert (steps + [step])[1..] == steps[1..] + [step];
    }
  }

  lemma ReachNext(g: Geometry, s: Ring, step: Step)
    requires Reachable(g, s) && Enabled(s, step)
    ensures Reachable(g, Next(g, s, step))
  {
    var start, steps :| Initial(g, start) && Runs(g, start, steps, s);
    RunsThen(g, start, steps, s, step);
  }

  /** One operation of the only client. */
  lemma Goes(g: Geometry, s: Ring, a: Action) returns (s': Ring)
    requires Reachable(g, s) && |s.clients| == 1
    ensures var e := ClientEffect(g, s, s.clients[0], a);
            && Reachable(g, s') && s'.clients == [e.next] && s'.slots == PutSlot(s.slots, e.write)
            && s'.claimed == s.claimed + e.claimedBy && s'.ready == s.ready + e.readyBy && s'.accepts == s.accepts
  {
    ReachNext(g, s, ClientStep(0, a));
    s' := Next(g, s, ClientStep(0, a));
  }

  /** A claim on a fresh ring wins a slot. */
  lemma FreshClaimScans(g: Geometry, s: Ring) returns (s': Ring)
    requires Initial(g, s) && |s.clients| == 1
    ensures Reachable(g, s') && s'.accepts && s'.claimed == 0 && s'.ready == 0
    ensures |s'.clients| == 1 && s'.clients[0].Winning? && s'.clients[0].step.ClearModule?
  {
    hide Reachable, Initial;
    s' := FreshClaimEnters(g, s);
    s' := Goes(g, s', Publish);
    s' := Goes(g, s', Publish);
  }

  lemma FreshClaimEnters(g: Geometry, s: Ring) returns (s': Ring)
    requires Initial(g, s) && |s.clients| == 1
    ensures Reachable(g, s') && s'.accepts && s'.claimed == 0 && s'.ready == 0 && s'.slots == s.slots && |s.slots| > 0
    ensures |s'.clients| == 1 && s'.clients[0].TakeCursor?
    ensures forall i :: 0 <= i < |s.slots| ==> s.slots[i].state.Free?
  {
    assert Runs(g, s, [], s);
    s' := Goes(g, s, Publish);
    s' := Goes(g, s', Publish);
  }

  lemma WinnerStep(g: Geometry, s: Ring) returns (s': Ring)
    requires Reachable(g, s) && s.accepts && |s.clients| == 1 && s.clients[0].Winning?
    ensures Reachable(g, s') && s'.accepts && s'.ready == s.ready && |s'.clients| == 1
    ensures match s.clients[0].step
            case ClearModule => s'.clients[0].Winning? && s'.clients[0].step.TakeSequence? && s'.claimed == s.claimed
            case TakeSequence => s'.clients[0].Winning? && s'.clients[0].step.StoreToken? && s'.claimed == s.claimed
            case StoreToken => s'.clients[0].Winning? && s'.clients[0].step.CountClaim? && s'.claimed == s.claimed
            case CountClaim => s'.clients[0].With? && s'.clients[0].at.Idle? && s'.claimed == s.claimed + 1
  {
    hide Reachable;
    ClientIsOk(g, s, 0);
    s' := Goes(g, s, Publish);
  }

  lemma FreshClaimWins(g: Geometry, s: Ring) returns (s': Ring)
    requires Initial(g, s) && |s.clients| == 1
    ensures Reachable(g, s') && s'.accepts && s'.claimed == 1 && s'.ready == 0
    ensures |s'.clients| == 1 && s'.clients[0].With? && s'.clients[0].at.Idle?
  {
    s' := FreshClaimScans(g, s);
    s' := WinnerStep(g, s');
    s' := WinnerStep(g, s');
    s' := WinnerStep(g, s');
    s' := WinnerStep(g, s');
  }

  /** Where an accepting ring takes the publisher of valid data next. */
  function PublishPath(at: HoldStep): HoldStep {
    match at
    case Idle => PublishLookup
    case PublishLookup => PublishLoadAccepts
    case PublishLoadAccepts => PublishValidate
    case _ => PublishCountReady
  }

  lemma PublishGoesOn(g: Geometry, s: Ring, o: Hold, at: HoldStep)
    requires s.accepts && ClientOk(s.slots, With(o, at)) && |s.slots| == g.capacity
    requires at.Idle? || at.PublishLookup? || at.PublishLoadAccepts? || at.PublishValidate?
    requires forall i: nat :: i < g.capacity ==> SlotDataValid(g, i, o.packed)
    ensures ClientEffect(g, s, With(o, at), Publish) == Quiet(With(o, PublishPath(at)))
  {
    hide SlotDataValid;
  }

  lemma PublisherStep(g: Geometry, s: Ring, o: Hold, at: HoldStep) returns (s': Ring)
    requires Reachable(g, s) && s.accepts && s.clients == [With(o, at)]
    requires at.Idle? || at.PublishLookup? || at.PublishLoadAccepts? || at.PublishValidate?
    requires forall i: nat :: i < g.capacity ==> SlotDataValid(g, i, o.packed)
    ensures Reachable(g, s') && s'.accepts && s'.claimed == s.claimed && s'.ready == s.ready
    ensures s'.clients == [With(o, PublishPath(at))]
  {
    hide Reachable, SlotDataValid, ClientEffect, ClientOk;
    ClientIsOk(g, s, 0);
    PublishGoesOn(g, s, o, at);
    s' := Goes(g, s, Publish);
  }

  lemma OwnerPacks(g: Geometry, s: Ring, d: SlotData) returns (s': Ring)
    requires Reachable(g, s) && s.accepts && |s.clients| == 1 && s.clients[0].With? && s.clients[0].at.Idle?
    ensures Reachable(g, s') && s'.accepts && s'.claimed == s.claimed && s'.ready == s.ready
    ensures s'.clients == [With(s.clients[0].hold.(packed := d), Idle)]
  {
    hide Reachable;
    ClientIsOk(g, s, 0);
    s' := Goes(g, s, Pack(d));
  }

  /** The owner packs a valid response and calls publish, up to its counter increment. */
  lemma OwnerPublishes(g: Geometry, s: Ring, d: SlotData) returns (s': Ring)
    requires Reachable(g, s) && s.accepts && |s.clients| == 1 && s.clients[0].With? && s.clients[0].at.Idle?
    requires forall i: nat :: i < g.capacity ==> SlotDataValid(g, i, d)
    ensures Reachable(g, s') && s'.accepts && s'.claimed == s.claimed && s'.ready == s.ready
    ensures |s'.clients| == 1 && s'.clients[0].With? && s'.clients[0].at.PublishCountReady?
  {
    var o := s.clients[0].hold.(packed := d);
    s' := OwnerPacks(g, s, d);
    s' := PublisherStep(g, s', o, Idle);
    s' := PublisherStep(g, s', o, PublishLookup);
    s' := PublisherStep(g, s', o, PublishLoadAccepts);
    s' := PublisherStep(g, s', o, PublishValidate);
  }

  /** The situation of `ReversedReadsMiss` does arise: the owner packs, starts to publish, and claims are refused. */
  lemma PublisherCaughtMidway(g: Geometry, s: Ring) returns (s': Ring)
    requires Initial(g, s) && |s.clients| == 1
    ensures Reachable(g, s') && !s'.accepts && s'.ready == 0 && s'.claimed == 1
    ensures |s'.clients| == 1 && s'.clients[0].With? && s'.clients[0].at.PublishCountReady?
  {
    var d := SlotData(1, 1, 0, 0, 0, 0, 0, 200, 0, [], []);
    forall i: nat | i < g.capacity ensures SlotDataValid(g, i, d) {
      ChecksExact(g, i, d);
    }
    s' := FreshClaimWins(g, s);
    s' := OwnerPublishes(g, s', d);
    ReachNext(g, s', Refuse);
    s' := Next(g, s', Refuse);
  }
}
