/**
  What becomes of published responses: their data has been checked against their
  own slot, and the drain sends each of them exactly when its request is
  registered.
*/
module RingDelivery {
  import opened Wrappers
  import opened SlotLayout
  import opened ResponseRing
  import opened RingInvariant
  import opened RingTheorems

  /** The publisher has validated its slot and has not handed it over yet. */
  predicate HasValidated(k: Client) {
    k.With? && (k.at.PublishCountReady? || k.at.PublishCas?)
  }

  /** The claim has won its slot and cleared its module number. */
  predicate HasCleared(k: Client) {
    k.Winning? && !k.step.ClearModule?
  }

  predicate Blank(slots: seq<Slot>, i: int) {
    0 <= i < |slots| && slots[i].data.moduleId == 0
  }

  predicate Checked(g: Geometry, slots: seq<Slot>, i: int) {
    0 <= i < |slots| && SlotDataValid(g, i, slots[i].data)
  }

  /** Whatever is published, or about to be, has passed the checks of its own slot; a new claim's slot is blank. */
  ghost predicate Vetted(g: Geometry, s: Ring) {
    && (forall i :: 0 <= i < |s.slots| && IsReadyOrDraining(s.slots[i]) ==> Checked(g, s.slots, i))
    && (forall c :: 0 <= c < |s.clients| && HasValidated(s.clients[c]) ==> Checked(g, s.slots, OwnIndex(s.clients[c])))
    && (forall c :: 0 <= c < |s.clients| && HasCleared(s.clients[c]) ==> Blank(s.slots, OwnIndex(s.clients[c])))
  }

  /** An effect of a client publishes checked data only, and validates and clears its own slot only. */
  predicate VetsItsSlot(g: Geometry, s: Ring, k: Client, e: Effect) {
    && (e.write.Write? && IsReadyOrDraining(e.write.slot) ==> SlotDataValid(g, e.write.index, e.write.slot.data))
    && (HasValidated(e.next) ==> !e.write.Write? && Checked(g, s.slots, OwnIndex(e.next)))
    && (HasCleared(e.next) ==> Blank(PutSlot(s.slots, e.write), OwnIndex(e.next)))
  }

  lemma HolderVets(g: Geometry, s: Ring, o: Hold, at: HoldStep, a: Action)
    requires ClientOk(s.slots, With(o, at))
    requires HasValidated(With(o, at)) ==> Checked(g, s.slots, OwnIndex(With(o, at)))
    ensures VetsItsSlot(g, s, With(o, at), HolderEffect(g, s, o, at, a))
  {
    hide SlotDataValid;
  }

  lemma ClientVets(g: Geometry, s: Ring, k: Client, a: Action)
    requires ClientOk(s.slots, k) && (HasValidated(k) ==> Checked(g, s.slots, OwnIndex(k)))
    requires HasCleared(k) ==> Blank(s.slots, OwnIndex(k))
    ensures VetsItsSlot(g, s, k, ClientEffect(g, s, k, a))
  {
    hide SlotDataValid, HolderEffect;
    if k.With? {
      HolderVets(g, s, k.hold, k.at, a);
    }
  }

  lemma EffectKeepsVetted(g: Geometry, s: Ring, c: nat, e: Effect)
    requires Owned(s) && Vetted(g, s) && c < |s.clients|
    requires RespectsOwners(s, s.clients[c], e) && VetsItsSlot(g, s, s.clients[c], e)
    ensures Vetted(g, Apply(s, c, e))
  {
    hide SlotDataValid, Fits;
    var s' := Apply(s, c, e);
    forall b | 0 <= b < |s'.clients| && HasValidated(s'.clients[b])
      ensures Checked(g, s'.slots, OwnIndex(s'.clients[b])) {
      if b != c {
        OthersSlotStays(s, c, b, e);
      }
    }
    forall b | 0 <= b < |s'.clients| && HasCleared(s'.clients[b]) ensures Blank(s'.slots, OwnIndex(s'.clients[b])) {
      if b != c {
        OthersSlotStays(s, c, b, e);
      }
    }
  }

  /** A client's effect does not write another owner's slot. */
  lemma OthersSlotStays(s: Ring, c: nat, b: nat, e: Effect)
    requires Owned(s) && c < |s.clients| && b < |s.clients| && b != c && Owns(s.clients[b])
    requires RespectsOwners(s, s.clients[c], e)
    ensures 0 <= OwnIndex(s.clients[b]) < |s.slots|
    ensures Apply(s, c, e).slots[OwnIndex(s.clients[b])] == s.slots[OwnIndex(s.clients[b])]
  {
    assert ClientOk(s.slots, s.clients[b]) && ClientOk(s.slots, s.clients[c]);
    if Owns(s.clients[c]) {
      OwnersDiffer(s, b, c);
    }
  }

  lemma OwnersDiffer(s: Ring, b: nat, c: nat)
    requires Owned(s) && b < |s.clients| && c < |s.clients| && b != c && Owns(s.clients[b]) && Owns(s.clients[c])
    ensures OwnIndex(s.clients[b]) != OwnIndex(s.clients[c])
  {
    if b < c {
      assert OwnIndex(s.clients[b]) != OwnIndex(s.clients[c]);
    } else {
      assert OwnIndex(s.clients[c]) != OwnIndex(s.clients[b]);
    }
  }

  lemma DrainKeepsVetted(g: Geometry, s: Ring)
    requires DrainerOk(s) && Vetted(g, s)
    ensures Vetted(g, DrainNext(g, s))
  {
    hide SlotDataValid, Route, DrainEffectOf;
    DrainWritesLegally(g, s);
  }

  // ------------------------------------------------------------------ sends

  /** The request of the data is registered for this context under the module that answers. */
  predicate IsRegistered(table: map<Word, Registration>, d: SlotData, ctx: nat) {
    d.requestSeq in table && table[d.requestSeq] == Registration(ctx, d.moduleId)
  }

  /** A response that was read at position k was sent exactly to the context registered there and then, if any. */
  ghost predicate SentExactly(log: seq<Event>, k: nat)
    requires k < |log|
  {
    log[k].DidRead? ==>
      forall ctx: nat :: log[k].sentTo == Some(ctx) <==> IsRegistered(TableOf(log[..k]), log[k].data, ctx)
  }

  ghost predicate AllSent(log: seq<Event>) {
    forall k :: 0 <= k < |log| ==> SentExactly(log, k)
  }

  lemma AppendSent(log: seq<Event>, e: Event)
    requires AllSent(log)
    requires e.DidRead? ==> forall ctx: nat :: e.sentTo == Some(ctx) <==> IsRegistered(TableOf(log), e.data, ctx)
    ensures AllSent(log + [e])
  {
    hide TableOf, IsRegistered;
    var log' := log + [e];
    forall k | 0 <= k < |log'| ensures SentExactly(log', k) {
      if k < |log| {
        assert SentExactly(log, k);
        assert log'[..k] == log[..k];
      } else {
        assert log'[..k] == log;
      }
    }
  }

  /** The drain's own check of checked data passes, so only the registration decides. */
  lemma RouteDecides(g: Geometry, s: Ring, i: nat)
    requires i < |s.slots| && SlotDataValid(g, i, s.slots[i].data)
    ensures forall ctx: nat :: Route(g, s, i) == Some(ctx) <==> IsRegistered(s.requests, s.slots[i].data, ctx)
  {
    hide SlotDataValid;
  }

  lemma DrainSends(g: Geometry, s: Ring)
    requires Inv(g, s) && Vetted(g, s) && AllSent(s.log)
    ensures AllSent(DrainNext(g, s).log)
  {
    hide Owned, Tickets, Counts, PassOk, LogRouted, AllSent, SlotDataValid, Route, IsRegistered, TableOf;
    var e := DrainEffectOf(g, s).event;
    if e.Some? {
      if e.value.DidRead? {
        RouteDecides(g, s, s.drainer.index);
      }
      AppendSent(s.log, e.value);
    }
  }

  /** Published data is checked, and so far every response was sent as it should be. */
  ghost predicate Delivers(g: Geometry, s: Ring) {
    Vetted(g, s) && AllSent(s.log)
  }

  lemma ClientDelivers(g: Geometry, s: Ring, c: nat, a: Action)
    requires Inv(g, s) && Delivers(g, s) && c < |s.clients|
    ensures Delivers(g, Apply(s, c, ClientEffect(g, s, s.clients[c], a)))
  {
    hide Owned, DrainerOk, Tickets, Counts, PassOk, Routed, ClientEffect, ClientOk, AllSent, RespectsOwners, KeepsBooks,
      VetsItsSlot, Checked;
    OwnedClient(s, c);
    ClientLegal(g, s, s.clients[c], a);
    ClientVets(g, s, s.clients[c], a);
    var e := ClientEffect(g, s, s.clients[c], a);
    EffectKeepsVetted(g, s, c, e);
    if e.event.Some? {
      AppendSent(s.log, e.event.value);
    }
  }

  lemma StepDelivers(g: Geometry, s: Ring, step: Step)
    requires Inv(g, s) && Delivers(g, s) && Enabled(s, step)
    ensures Delivers(g, Next(g, s, step))
  {
    hide Inv, ClientEffect, DrainNext, AllSent, Checked;
    match step {
      case ClientStep(c, a) =>
        ClientDelivers(g, s, c, a);
      case DrainStep =>
        DrainerIsOk(g, s);
        DrainKeepsVetted(g, s);
        DrainSends(g, s);
      case Install(q, r) =>
        AppendSent(s.log, DidInstall(q, r));
      case Remove(q) =>
        AppendSent(s.log, DidRemove(q));
      case Refuse =>
    }
  }

  lemma DrainerIsOk(g: Geometry, s: Ring)
    requires Inv(g, s)
    ensures DrainerOk(s)
  {
  }

  lemma {:induction false} RunDelivers(g: Geometry, before: Ring, steps: seq<Step>, after: Ring)
    requires Inv(g, before) && Delivers(g, before) && Runs(g, before, steps, after)
    ensures Delivers(g, after)
    decreases |steps|
  {
    hide Inv, Delivers, Next;
    if steps != [] {
      StepKeepsInv(g, before, steps[0]);
      StepDelivers(g, before, steps[0]);
      RunDelivers(g, Next(g, before, steps[0]), steps[1..], after);
    }
  }

  lemma ReachableDelivers(g: Geometry, s: Ring)
    requires Reachable(g, s)
    ensures Delivers(g, s)
  {
    hide Inv, Runs;
    var start, steps :| Initial(g, start) && Runs(g, start, steps, s);
    InitialInv(g, start);
    RunDelivers(g, start, steps, s);
  }

  // ------------------------------------------------------------ in short

  /** In every reachable state the data of a READY or DRAINING slot lies in that slot's own payload. */
  lemma PublishedDataIsOwned(g: Geometry, s: Ring, i: nat)
    requires Reachable(g, s) && i < |s.slots| && (s.slots[i].state.Ready? || s.slots[i].state.Draining?)
    ensures g.Valid() && |s.slots| == g.capacity && OwnsItsRanges(g, i, s.slots[i].data)
  {
    hide SlotDataValid, OwnsItsRanges, Owned, DrainerOk, Tickets, Counts, PassOk, Routed;
    ReachableInv(g, s);
    ReachableDelivers(g, s);
    assert Checked(g, s.slots, i);
    ChecksExact(g, i, s.slots[i].data);
  }

  /** A claim hands its slot over blank, and data without a module number cannot be published. */
  lemma UnpackedIsRefused(g: Geometry, s: Ring, c: nat, a: Action)
    requires Reachable(g, s) && c < |s.clients|
    ensures s.clients[c].Winning? && s.clients[c].step.CountClaim? ==>
      var k := Next(g, s, ClientStep(c, a)).clients[c];
      k.With? && k.at.Idle? && k.hold.packed.moduleId == 0
    ensures s.clients[c].With? && s.clients[c].at.PublishValidate? && s.clients[c].hold.packed.moduleId == 0 ==>
      Next(g, s, ClientStep(c, a)) == s.(clients := s.clients[c := With(s.clients[c].hold, MustAbort)])
  {
    hide DrainerOk, Tickets, Counts, PassOk, Routed, Reachable;
    ReachableInv(g, s);
    ReachableDelivers(g, s);
    assert HasCleared(s.clients[c]) ==> Blank(s.slots, OwnIndex(s.clients[c]));
    if s.clients[c].With? && s.clients[c].at.PublishValidate? && s.clients[c].hold.packed.moduleId == 0 {
      Unnamed(g, OwnIndex(s.clients[c]), s.clients[c].hold.packed);
    }
  }

  lemma Unnamed(g: Geometry, i: nat, d: SlotData)
    requires d.moduleId == 0 && i < g.capacity
    ensures !SlotDataValid(g, i, d)
  {
  }

  /** Every response that was read was sent exactly when its request was registered then, and to that context. */
  lemma ResponsesAreSentExactly(g: Geometry, s: Ring, k: nat, ctx: nat)
    requires Reachable(g, s) && k < |s.log| && s.log[k].DidRead?
    ensures var d, table := s.log[k].data, TableOf(s.log[..k]);
            s.log[k].sentTo == Some(ctx) <==>
              d.requestSeq in table && table[d.requestSeq] == Registration(ctx, d.moduleId)
  {
    hide Vetted, TableOf;
    ReachableDelivers(g, s);
    assert SentExactly(s.log, k);
  }

  /** What the drain does with the slot it holds: it sends exactly what lies in its slot and is registered. */
  lemma DeliveryIsExact(g: Geometry, s: Ring, i: nat, ctx: nat)
    requires Reachable(g, s) && s.drainer == Deliver(i)
    ensures i < |s.slots|
    ensures var slot, log' := s.slots[i], Next(g, s, DrainStep).log;
            && |log'| == |s.log| + 1 && log'[..|s.log|] == s.log
            && log'[|s.log|].DidRead? && log'[|s.log|].ticket == slot.ticket && log'[|s.log|].data == slot.data
            && (log'[|s.log|].sentTo == Some(ctx) <==>
                  OwnsItsRanges(g, i, slot.data) && IsRegistered(TableOf(s.log), slot.data, ctx))
  {
    hide SlotDataValid, OwnsItsRanges, Owned, Tickets, Counts, PassOk, LogRouted, Route, IsRegistered, TableOf;
    ReachableInv(g, s);
    ChecksExact(g, i, s.slots[i].data);
    RouteIsExact(g, s, i, ctx);
  }

  lemma RouteIsExact(g: Geometry, s: Ring, i: nat, ctx: nat)
    requires i < |s.slots|
    ensures Route(g, s, i) == Some(ctx) <==>
      SlotDataValid(g, i, s.slots[i].data) && IsRegistered(s.requests, s.slots[i].data, ctx)
  {
    hide SlotDataValid;
  }

  lemma {:induction false} InHistory(log: seq<Event>, t: nat, n: nat) returns (k: nat)
    requires n < |History(log, t)|
    ensures k < |log| && log[k] == History(log, t)[n] && Concerns(log[k], t)
  {
    var before := History(log[..|log| - 1], t);
    if n < |before| {
      k := InHistory(log[..|log| - 1], t, n);
    } else {
      k := |log| - 1;
    }
  }

  lemma {:induction false} LogGrows(g: Geometry, before: Ring, steps: seq<Step>, after: Ring)
    requires Runs(g, before, steps, after)
    ensures |before.log| <= |after.log| && after.log[..|before.log|] == before.log
    decreases |steps|
  {
    hide ClientEffect, DrainEffectOf;
    if steps != [] {
      var mid := Next(g, before, steps[0]);
      LogGrows(g, mid, steps[1..], after);
      assert mid.log[..|before.log|] == before.log;
      assert after.log[..|before.log|] == after.log[..|mid.log|][..|before.log|];
    }
  }

  lemma {:induction false} EventInHistory(log: seq<Event>, t: nat, k: nat)
    requires k < |log| && Concerns(log[k], t)
    ensures log[k] in History(log, t)
  {
    if k < |log| - 1 {
      EventInHistory(log[..|log| - 1], t, k);
    }
  }

  /**
    A response that is READY when a pass starts is read during that pass, and
    sent exactly when its request is registered at that moment.
  */
  lemma PassAnswersReady(g: Geometry, before: Ring, steps: seq<Step>, after: Ring, i: nat) returns (k: nat)
    requires Reachable(g, before) && before.drainer.LoadReady?
    requires Runs(g, DrainNext(g, before), steps, after) && after.drainer.Resting?
    requires i < |before.slots| && before.slots[i].state.Ready?
    ensures |before.log| <= k < |after.log| && after.log[k].DidRead?
    ensures after.log[k].ticket == before.slots[i].ticket && after.log[k].data == before.slots[i].data
    ensures forall ctx: nat ::
      after.log[k].sentTo == Some(ctx) <==> IsRegistered(TableOf(after.log[..k]), before.slots[i].data, ctx)
  {
    hide Inv, IsRegistered, TableOf, History, Vetted, Runs, DrainNext;
    var t := before.slots[i].ticket;
    PassFreesReady(g, before, steps, after, i);
    ReachableAfter(g, before, steps, after);
    ReachableDelivers(g, after);
    k := InHistory(after.log, t, 3);
    assert SentExactly(after.log, k);
    LogGrows(g, before, [DrainStep] + steps, after);
    NotReadYet(g, before, i);
    if k < |before.log| {
      assert after.log[..|before.log|][k] == after.log[k];
      EventInHistory(before.log, t, k);
    }
  }

  lemma ReachableAfter(g: Geometry, before: Ring, steps: seq<Step>, after: Ring)
    requires Reachable(g, before) && Runs(g, DrainNext(g, before), steps, after)
    ensures Reachable(g, after) && Runs(g, before, [DrainStep] + steps, after)
  {
    hide DrainNext;
    assert ([DrainStep] + steps)[1..] == steps;
    assert Runs(g, before, [DrainStep] + steps, after);
    RunsReach(g, before, [DrainStep] + steps, after);
  }

  lemma RunsReach(g: Geometry, before: Ring, steps: seq<Step>, after: Ring)
    requires Reachable(g, before) && Runs(g, before, steps, after)
    ensures Reachable(g, after)
  {
    hide Next;
    var start, first :| Initial(g, start) && Runs(g, start, first, before);
    RunsJoin(g, start, first, before, steps, after);
  }

  lemma {:induction false} RunsJoin(g: Geometry, a: Ring, first: seq<Step>, b: Ring, second: seq<Step>, c: Ring)
    requires Runs(g, a, first, b) && Runs(g, b, second, c)
    ensures Runs(g, a, first + second, c)
    decreases |first|
  {
    hide Next;
    if first == [] {
      assert first + second == second;
    } else {
      RunsJoin(g, Next(g, a, first[0]), first[1..], b, second, c);
      assert (first + second)[1..] == first[1..] + second;
    }
  }

  /** A READY slot's claim has been made and published, and nothing more. */
  lemma NotReadYet(g: Geometry, s: Ring, i: nat)
    requires Reachable(g, s) && i < |s.slots| && s.slots[i].state.Ready?
    ensures forall e :: e in History(s.log, s.slots[i].ticket) ==> !e.DidRead?
  {
    hide Owned, DrainerOk, Counts, PassOk, Routed, History;
    ReachableInv(g, s);
    assert LiveSlot(s, i);
  }
}
