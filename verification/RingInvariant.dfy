/** What every step of the response ring keeps. */
module RingInvariant {
  import opened Wrappers
  import opened SlotLayout
  import opened ResponseRing
  import opened Counting
  import Handles

  // ------------------------------------------------- where a client stands

  /** The client has won a slot but has not yet added itself to the claimed counter. */
  predicate NotYetCounted(k: Client) { k.Winning? }

  /** The client has given its slot away but has not yet left the claimed counter. */
  predicate PendingUncount(k: Client) {
    k.With? && (k.at.PublishUncountClaim? || k.at.AbortUncountClaim?)
  }

  /** The client holds a handle, in or between calls. */
  predicate HoldsHandle(k: Client) { k.With? && !PendingUncount(k) }

  predicate Owns(k: Client) { NotYetCounted(k) || HoldsHandle(k) }

  predicate Counted(k: Client) { k.With? }

  /** The client has added itself to the ready counter and its slot is still CLAIMED. */
  predicate PastReadyIncrement(k: Client) { k.With? && k.at.PublishCas? }

  function OwnIndex(k: Client): int
    requires Owns(k)
  {
    if NotYetCounted(k) then k.index else Handles.IndexField(k.hold.handle) - 1
  }

  function OwnTicket(k: Client): nat
    requires Owns(k)
  {
    if NotYetCounted(k) then k.ticket else k.hold.ticket
  }

  predicate IsClaimed(slot: Slot) { slot.state.Claimed? }

  predicate IsReadyOrDraining(slot: Slot) { slot.state.Ready? || slot.state.Draining? }

  // ------------------------------------------------------------ ownership

  /** What an owner knows about its slot. */
  predicate Fits(k: Client, slot: Slot)
    requires Owns(k)
  {
    && slot.state.Claimed? && slot.ticket == OwnTicket(k)
    && (k.Winning? && (k.step.StoreToken? || k.step.CountClaim?) ==>
          k.handle != 0 && Handles.IndexField(k.handle) == k.index + 1)
    && (k.Winning? && k.step.CountClaim? ==> slot.token == k.handle)
    && (HoldsHandle(k) ==> k.hold.handle != 0 && slot.token == k.hold.handle && slot.data == k.hold.packed)
  }

  predicate ClientOk(slots: seq<Slot>, k: Client) {
    && !(k.With? && k.at.PublishUncountReady?)
    && (Owns(k) ==> 0 <= OwnIndex(k) < |slots| && Fits(k, slots[OwnIndex(k)]))
  }

  ghost predicate Owned(s: Ring) {
    && (forall c :: 0 <= c < |s.clients| ==> ClientOk(s.slots, s.clients[c]))
    && (forall c, c' :: 0 <= c < c' < |s.clients| && Owns(s.clients[c]) && Owns(s.clients[c'])
          ==> OwnIndex(s.clients[c]) != OwnIndex(s.clients[c']))
  }

  /** The drainer's place in its pass; exactly its current slot is DRAINING. */
  ghost predicate DrainerOk(s: Ring) {
    && (s.drainer.Scan? ==> s.drainer.next <= |s.slots|)
    && (s.drainer.UncountReady? ==> s.drainer.index < |s.slots|)
    && (s.drainer.Deliver? || s.drainer.StoreFree? ==>
          s.drainer.index < |s.slots| && s.slots[s.drainer.index].state.Draining?)
    && (forall i :: 0 <= i < |s.slots| && s.slots[i].state.Draining? ==>
          s.drainer == Deliver(i) || s.drainer == StoreFree(i))
  }

  // -------------------------------------------------------------- tickets

  predicate Concerns(e: Event, t: nat) {
    match e
    case DidInstall(_, _) => false
    case DidRemove(_) => false
    case _ => e.ticket == t
  }

  /** The part of the log that concerns one claim. */
  function History(log: seq<Event>, t: nat): seq<Event> {
    if log == [] then []
    else History(log[..|log| - 1], t) + (if Concerns(log[|log| - 1], t) then [log[|log| - 1]] else [])
  }

  lemma HistoryAppend(log: seq<Event>, e: Event, t: nat)
    ensures History(log + [e], t) == History(log, t) + (if Concerns(e, t) then [e] else [])
  {
    assert (log + [e])[..|log|] == log;
  }

  /**
    One claim's life: claimed; then aborted, or published with some data, taken
    by the drainer, read with exactly that data (and sent or not), and freed.
  */
  predicate Lifecycle(h: seq<Event>, t: nat) {
    && |h| <= 5
    && (|h| > 0 ==> h[0] == DidClaim(t))
    && (|h| > 1 ==> (h[1] == DidAbort(t) && |h| == 2) || (h[1].DidPublish? && h[1].ticket == t))
    && (|h| > 2 ==> h[2] == DidTake(t))
    && (|h| > 3 ==> h[3].DidRead? && h[3].ticket == t && h[3].data == h[1].data)
    && (|h| > 4 ==> h[4] == DidFree(t))
  }

  predicate Closed(h: seq<Event>, t: nat) {
    Lifecycle(h, t) && (|h| == 5 || (|h| == 2 && h[1] == DidAbort(t)))
  }

  predicate LiveShape(h: seq<Event>, slot: Slot, d: Drainer) {
    && Lifecycle(h, slot.ticket)
    && match slot.state
       case Free => true
       case Claimed => |h| == 1
       case Ready => |h| == 2 && h[1] == DidPublish(slot.ticket, slot.data)
       case Draining => |h| == (if d.Deliver? then 3 else 4) && h[1] == DidPublish(slot.ticket, slot.data)
  }

  predicate LiveAt(s: Ring, i: int, t: nat) {
    0 <= i < |s.slots| && !s.slots[i].state.Free? && s.slots[i].ticket == t
  }

  predicate LiveSlot(s: Ring, i: nat)
    requires i < |s.slots|
  {
    && s.slots[i].ticket < s.tickets
    && LiveShape(History(s.log, s.slots[i].ticket), s.slots[i], s.drainer)
  }

  ghost predicate LiveOk(s: Ring) {
    && (forall i :: 0 <= i < |s.slots| && !s.slots[i].state.Free? ==> LiveSlot(s, i))
    && (forall i, j :: 0 <= i < j < |s.slots| && !s.slots[i].state.Free? && !s.slots[j].state.Free? ==>
          s.slots[i].ticket != s.slots[j].ticket)
  }

  ghost predicate PastOk(s: Ring) {
    && (forall t: nat :: t >= s.tickets ==> History(s.log, t) == [])
    && (forall t: nat :: t < s.tickets ==> Closed(History(s.log, t), t) || exists i :: LiveAt(s, i, t))
  }

  ghost predicate Tickets(s: Ring) {
    LiveOk(s) && PastOk(s)
  }

  // ------------------------------------------------------------- counters

  ghost predicate Counts(s: Ring) {
    && Count(s.slots, IsClaimed) == Count(s.clients, Owns)
    && s.claimed == Count(s.clients, Counted)
    && s.ready == Count(s.slots, IsReadyOrDraining) + Count(s.clients, PastReadyIncrement)
                + (if s.drainer.UncountReady? then 1 else 0)
  }

  // ----------------------------------------------------------- drain passes

  predicate WasFreed(s: Ring, t: nat) {
    t < s.tickets && |History(s.log, t)| == 5
  }

  /** How many slots the drainer has left behind in this pass. */
  function Behind(s: Ring): nat {
    match s.drainer
    case Resting => |s.slots|
    case LoadReady => |s.slots|
    case Scan(i) => i
    case Deliver(i) => i
    case StoreFree(i) => i
    case UncountReady(i) => i + 1
  }

  /** Claim `t` waits in slot `j`, which the drainer has yet to finish in this pass. */
  predicate AheadAt(s: Ring, j: nat, t: nat) {
    Behind(s) <= j < |s.slots| && IsReadyOrDraining(s.slots[j]) && s.slots[j].ticket == t
  }

  predicate PassAt(s: Ring, j: nat, t: nat) {
    if j < Behind(s) then WasFreed(s, t) else AheadAt(s, j, t)
  }

  ghost predicate PassOk(s: Ring) {
    && |s.snapshot| == |s.slots|
    && forall j :: 0 <= j < |s.slots| && s.snapshot[j].Some? ==> PassAt(s, j, s.snapshot[j].value)
  }

  // --------------------------------------------------------------- routing

  function TableAfter(table: map<Word, Registration>, e: Event): map<Word, Registration> {
    match e
    case DidInstall(q, r) => table[q := r]
    case DidRemove(q) => table - {q}
    case _ => table
  }

  /** The request table that the log describes. */
  function TableOf(log: seq<Event>): map<Word, Registration> {
    if log == [] then map[] else TableAfter(TableOf(log[..|log| - 1]), log[|log| - 1])
  }

  /** A send at position `k` of the log went to the context registered there and then. */
  predicate SendRouted(log: seq<Event>, k: nat)
    requires k < |log|
  {
    log[k].DidRead? && log[k].sentTo.Some? ==>
      var d, table := log[k].data, TableOf(log[..k]);
      && d.requestSeq in table
      && table[d.requestSeq] == Registration(log[k].sentTo.value, d.moduleId)
  }

  /** No context is registered under two request numbers. */
  ghost predicate OneEach(table: map<Word, Registration>) {
    forall q, q' :: q in table && q' in table && table[q].ctx == table[q'].ctx ==> q == q'
  }

  ghost predicate LogRouted(log: seq<Event>) {
    && (forall k :: 0 <= k < |log| ==> SendRouted(log, k))
    && (forall k :: 0 <= k <= |log| ==> OneEach(TableOf(log[..k])))
  }

  ghost predicate Routed(s: Ring) {
    s.requests == TableOf(s.log) && LogRouted(s.log)
  }

  ghost predicate Inv(g: Geometry, s: Ring) {
    && g.Valid() && |s.slots| == g.capacity
    && Owned(s) && DrainerOk(s) && Tickets(s) && Counts(s) && PassOk(s) && Routed(s)
  }

  // ------------------------------------------------- what one effect may do

  function Bit(b: bool): nat { if b then 1 else 0 }

  /** The effect writes a slot that is free or the client's own, and leaves the client its slot. */
  predicate RespectsOwners(s: Ring, k: Client, e: Effect) {
    && (e.write.Write? ==>
          && e.write.index < |s.slots|
          && (s.slots[e.write.index].state.Free? || (Owns(k) && OwnIndex(k) == e.write.index)))
    && ClientOk(PutSlot(s.slots, e.write), e.next)
    && (Owns(e.next) ==>
          || (e.write.Write? && e.write.index == OwnIndex(e.next))
          || (Owns(k) && OwnIndex(k) == OwnIndex(e.next)))
  }

  function Delta(s: Ring, w: Write, p: Slot -> bool): int {
    if w.Write? && w.index < |s.slots| then Bit(p(w.slot)) - Bit(p(s.slots[w.index])) else 0
  }

  /** The effect keeps both counters in step with the slots and the clients. */
  predicate KeepsBooks(s: Ring, k: Client, e: Effect) {
    && e.claimedBy == Bit(Counted(e.next)) - Bit(Counted(k))
    && Delta(s, e.write, IsClaimed) == Bit(Owns(e.next)) - Bit(Owns(k))
    && e.readyBy == Delta(s, e.write, IsReadyOrDraining) + Bit(PastReadyIncrement(e.next)) - Bit(PastReadyIncrement(k))
  }

  /** The effect moves its slot along the claim's life and logs exactly that. */
  predicate TellsStory(s: Ring, e: Effect) {
    (e.write.Write? ==> e.write.index < |s.slots|) &&
    match e.event
    case None =>
      e.write.Write? ==>
        var was := s.slots[e.write.index];
        was.state.Claimed? && e.write.slot.state.Claimed? && e.write.slot.ticket == was.ticket
    case Some(DidClaim(t)) =>
      && e.write.Write? && t == s.tickets && s.slots[e.write.index].state.Free?
      && e.write.slot.state.Claimed? && e.write.slot.ticket == t
    case Some(DidAbort(t)) =>
      && e.write.Write? && s.slots[e.write.index].state.Claimed?
      && t == s.slots[e.write.index].ticket && e.write.slot == s.slots[e.write.index].(state := Free)
    case Some(DidPublish(t, d)) =>
      && e.write.Write? && s.slots[e.write.index].state.Claimed?
      && t == s.slots[e.write.index].ticket && d == s.slots[e.write.index].data
      && e.write.slot == s.slots[e.write.index].(state := Ready)
    case _ => false
  }

  predicate Legal(s: Ring, k: Client, e: Effect) {
    RespectsOwners(s, k, e) && KeepsBooks(s, k, e) && TellsStory(s, e)
  }

  lemma ScanLegal(s: Ring, k: Client)
    requires !k.Winning? && !k.With?
    ensures Legal(s, k, ClaimEffect(s, k))
  {
  }

  lemma WinnerLegal(s: Ring, k: Client)
    requires |s.slots| <= UINT16_MAX && ClientOk(s.slots, k) && k.Winning?
    ensures Legal(s, k, WinEffect(s, k))
  {
    if k.step.TakeSequence? {
      Handles.HandleDecodes(s.sequence, k.index);
    }
  }

  lemma HolderLegal(g: Geometry, s: Ring, o: Hold, at: HoldStep, a: Action)
    requires ClientOk(s.slots, With(o, at))
    ensures Legal(s, With(o, at), HolderEffect(g, s, o, at, a))
  {
    hide ClientOk, HolderEffect, RespectsOwners, KeepsBooks, TellsStory;
    HolderRespects(g, s, o, at, a);
    HolderCounts(g, s, o, at, a);
  }

  lemma HolderRespects(g: Geometry, s: Ring, o: Hold, at: HoldStep, a: Action)
    requires ClientOk(s.slots, With(o, at))
    ensures RespectsOwners(s, With(o, at), HolderEffect(g, s, o, at, a))
  {
    hide SlotDataValid;
  }

  lemma HolderCounts(g: Geometry, s: Ring, o: Hold, at: HoldStep, a: Action)
    requires ClientOk(s.slots, With(o, at))
    ensures KeepsBooks(s, With(o, at), HolderEffect(g, s, o, at, a)) && TellsStory(s, HolderEffect(g, s, o, at, a))
  {
    hide SlotDataValid;
  }

  /** Under the handle contract every client operation is legal. */
  lemma ClientLegal(g: Geometry, s: Ring, k: Client, a: Action)
    requires |s.slots| <= UINT16_MAX && ClientOk(s.slots, k)
    ensures Legal(s, k, ClientEffect(g, s, k, a))
  {
    match k
    case With(o, at) => HolderLegal(g, s, o, at, a);
    case Winning(_, _, _, _) => WinnerLegal(s, k);
    case _ => ScanLegal(s, k);
  }

  // ------------------------------------------------ a legal effect keeps Inv

  lemma EffectKeepsOwned(s: Ring, c: nat, e: Effect)
    requires Owned(s) && c < |s.clients| && RespectsOwners(s, s.clients[c], e)
    ensures Owned(Apply(s, c, e))
  {
    var s' := Apply(s, c, e);
    forall b | 0 <= b < |s'.clients| ensures ClientOk(s'.slots, s'.clients[b]) {
      if b != c {
        assert ClientOk(s.slots, s.clients[b]) && ClientOk(s.slots, s.clients[c]);
      }
    }
    forall b, b' | 0 <= b < b' < |s'.clients| && Owns(s'.clients[b]) && Owns(s'.clients[b'])
      ensures OwnIndex(s'.clients[b]) != OwnIndex(s'.clients[b'])
    {
      assert ClientOk(s.slots, s.clients[b]) && ClientOk(s.slots, s.clients[b']);
    }
  }

  lemma CountWrite(s: Ring, w: Write, p: Slot -> bool)
    ensures Count(PutSlot(s.slots, w), p) == Count(s.slots, p) + Delta(s, w, p)
  {
    if w.Write? && w.index < |s.slots| {
      CountUpdate(s.slots, w.index, w.slot, p);
    }
  }

  lemma CountClient(s: Ring, c: nat, k: Client, p: Client -> bool)
    requires c < |s.clients|
    ensures Count(s.clients[c := k], p) == Count(s.clients, p) + Bit(p(k)) - Bit(p(s.clients[c]))
  {
    CountUpdate(s.clients, c, k, p);
  }

  lemma EffectKeepsCounts(s: Ring, c: nat, e: Effect)
    requires Counts(s) && c < |s.clients| && KeepsBooks(s, s.clients[c], e)
    ensures Counts(Apply(s, c, e))
  {
    CountClient(s, c, e.next, Owns);
    CountClient(s, c, e.next, Counted);
    CountClient(s, c, e.next, PastReadyIncrement);
    CountWrite(s, e.write, IsClaimed);
    CountWrite(s, e.write, IsReadyOrDraining);
  }

  lemma EffectKeepsDrainer(s: Ring, c: nat, e: Effect)
    requires DrainerOk(s) && c < |s.clients| && TellsStory(s, e)
    ensures DrainerOk(Apply(s, c, e))
  {
  }

  /** History of every ticket after an effect. */
  lemma HistoryAfter(s: Ring, c: nat, e: Effect, t: nat)
    requires c < |s.clients|
    ensures History(Apply(s, c, e).log, t)
         == History(s.log, t) + (if e.event.Some? && Concerns(e.event.value, t) then [e.event.value] else [])
  {
    if e.event.Some? {
      HistoryAppend(s.log, e.event.value, t);
    }
  }

  /** Claims other than the one in the written slot are not affected. */
  lemma OtherHistories(s: Ring, c: nat, e: Effect, t: nat)
    requires c < |s.clients| && TellsStory(s, e)
    requires e.write.Write? ==> e.write.slot.ticket != t
    ensures History(Apply(s, c, e).log, t) == History(s.log, t)
  {
    HistoryAfter(s, c, e, t);
  }

  lemma ShapeAfterClaim(slot: Slot, d: Drainer)
    requires slot.state.Claimed?
    ensures LiveShape([DidClaim(slot.ticket)], slot, d)
  {
  }

  lemma ShapeAfterPack(h: seq<Event>, was: Slot, slot: Slot, d: Drainer)
    requires LiveShape(h, was, d) && was.state.Claimed? && slot.state.Claimed? && slot.ticket == was.ticket
    ensures LiveShape(h, slot, d)
  {
  }

  lemma ShapeAfterPublish(h: seq<Event>, was: Slot, d: Drainer)
    requires LiveShape(h, was, d) && was.state.Claimed?
    ensures LiveShape(h + [DidPublish(was.ticket, was.data)], was.(state := Ready), d)
  {
  }

  lemma WrittenSlotLives(s: Ring, c: nat, e: Effect)
    requires Tickets(s) && c < |s.clients| && TellsStory(s, e) && e.write.Write? && !e.write.slot.state.Free?
    ensures LiveSlot(Apply(s, c, e), e.write.index)
  {
    hide LiveShape, History;
    var i, slot := e.write.index, e.write.slot;
    var was := s.slots[i];
    HistoryAfter(s, c, e, slot.ticket);
    if e.event.None? {
      assert LiveSlot(s, i);
      ShapeAfterPack(History(s.log, slot.ticket), was, slot, s.drainer);
    } else if e.event.value.DidClaim? {
      NoHistoryYet(s, s.tickets);
      ShapeAfterClaim(slot, s.drainer);
      assert [] + [e.event.value] == [DidClaim(slot.ticket)];
    } else {
      assert LiveSlot(s, i);
      ShapeAfterPublish(History(s.log, slot.ticket), was, s.drainer);
    }
  }

  lemma EffectKeepsLiveAt(s: Ring, c: nat, e: Effect, i: nat)
    requires Tickets(s) && c < |s.clients| && TellsStory(s, e)
    requires i < |s.slots| && !Apply(s, c, e).slots[i].state.Free?
    ensures LiveSlot(Apply(s, c, e), i)
  {
    hide LiveShape, History, PastOk;
    if e.write.Write? && i == e.write.index {
      WrittenSlotLives(s, c, e);
    } else {
      OtherTickets(s, c, e, i);
      OtherHistories(s, c, e, s.slots[i].ticket);
      assert LiveSlot(s, i);
    }
  }

  lemma NoHistoryYet(s: Ring, t: nat)
    requires PastOk(s) && t >= s.tickets
    ensures History(s.log, t) == []
  {
  }

  /** A slot that is not written has another ticket than the one that is. */
  lemma OtherTickets(s: Ring, c: nat, e: Effect, i: nat)
    requires LiveOk(s) && c < |s.clients| && TellsStory(s, e)
    requires i < |s.slots| && !s.slots[i].state.Free? && !(e.write.Write? && i == e.write.index)
    ensures e.write.Write? ==> e.write.slot.ticket != s.slots[i].ticket
  {
    hide LiveShape, History;
  }

  lemma EffectKeepsLive(s: Ring, c: nat, e: Effect)
    requires Tickets(s) && c < |s.clients| && TellsStory(s, e)
    ensures LiveOk(Apply(s, c, e))
  {
    hide LiveShape, History, PastOk;
    var s' := Apply(s, c, e);
    forall i | 0 <= i < |s'.slots| && !s'.slots[i].state.Free? ensures LiveSlot(s', i) {
      EffectKeepsLiveAt(s, c, e, i);
    }
    forall i, j | 0 <= i < j < |s'.slots| && !s'.slots[i].state.Free? && !s'.slots[j].state.Free?
      ensures s'.slots[i].ticket != s'.slots[j].ticket
    {
      if e.write.Write? && i == e.write.index {
        OtherTickets(s, c, e, j);
      } else {
        OtherTickets(s, c, e, i);
      }
    }
  }

  lemma EffectKeepsPast(s: Ring, c: nat, e: Effect)
    requires Tickets(s) && c < |s.clients| && TellsStory(s, e)
    ensures PastOk(Apply(s, c, e))
  {
    var s' := Apply(s, c, e);
    forall t: nat | t >= s'.tickets ensures History(s'.log, t) == [] {
      HistoryAfter(s, c, e, t);
    }
    forall t: nat | t < s'.tickets
      ensures Closed(History(s'.log, t), t) || exists i :: LiveAt(s', i, t)
    {
      if e.write.Write? && e.write.slot.ticket == t {
        HistoryAfter(s, c, e, t);
        assert e.write.slot.state.Free? || LiveAt(s', e.write.index, t);
      } else {
        OtherHistories(s, c, e, t);
        if exists i :: LiveAt(s, i, t) {
          var i :| LiveAt(s, i, t);
          assert LiveAt(s', i, t);
        }
      }
    }
  }

  lemma EffectKeepsAhead(s: Ring, c: nat, e: Effect, j: nat, t: nat)
    requires c < |s.clients| && TellsStory(s, e) && AheadAt(s, j, t)
    ensures AheadAt(Apply(s, c, e), j, t)
  {
  }

  lemma EffectKeepsFreed(s: Ring, c: nat, e: Effect, t: nat)
    requires LiveOk(s) && c < |s.clients| && TellsStory(s, e) && WasFreed(s, t)
    ensures WasFreed(Apply(s, c, e), t)
  {
    HistoryAfter(s, c, e, t);
  }

  lemma EffectKeepsPassAt(s: Ring, c: nat, e: Effect, j: nat, t: nat)
    requires Tickets(s) && c < |s.clients| && TellsStory(s, e) && j < |s.slots|
    ensures AheadAt(s, j, t) ==> AheadAt(Apply(s, c, e), j, t)
    ensures WasFreed(s, t) ==> WasFreed(Apply(s, c, e), t)
  {
    hide TellsStory, AheadAt, WasFreed, LiveOk;
    if AheadAt(s, j, t) {
      EffectKeepsAhead(s, c, e, j, t);
    }
    if WasFreed(s, t) {
      EffectKeepsFreed(s, c, e, t);
    }
  }

  lemma EffectKeepsPass(s: Ring, c: nat, e: Effect)
    requires Tickets(s) && PassOk(s) && c < |s.clients| && TellsStory(s, e)
    ensures PassOk(Apply(s, c, e))
  {
    forall j | 0 <= j < |s.slots| && s.snapshot[j].Some?
      ensures PassAt(Apply(s, c, e), j, s.snapshot[j].value)
    {
      EffectKeepsPassAt(s, c, e, j, s.snapshot[j].value);
    }
  }

  /** Appending an event that is itself well routed keeps every send well routed. */
  lemma AppendRouted(log: seq<Event>, e: Event)
    requires LogRouted(log) && OneEach(TableAfter(TableOf(log), e))
    requires e.DidRead? && e.sentTo.Some? ==>
               e.data.requestSeq in TableOf(log)
               && TableOf(log)[e.data.requestSeq] == Registration(e.sentTo.value, e.data.moduleId)
    ensures LogRouted(log + [e])
    ensures TableOf(log + [e]) == TableAfter(TableOf(log), e)
  {
    var log' := log + [e];
    assert log'[..|log|] == log;
    forall k | 0 <= k <= |log| ensures SendRouted(log', k) && OneEach(TableOf(log'[..k])) {
      assert log'[..k] == log[..k];
      if k < |log| {
        assert SendRouted(log, k);
      }
    }
    assert log'[..|log'|] == log';
  }

  lemma EffectKeepsRouted(s: Ring, c: nat, e: Effect)
    requires Routed(s) && c < |s.clients| && TellsStory(s, e)
    ensures Routed(Apply(s, c, e))
  {
    hide LogRouted;
    if e.event.Some? {
      TableIsRouted(s.log);
      AppendRouted(s.log, e.event.value);
    }
  }

  lemma TableIsRouted(log: seq<Event>)
    requires LogRouted(log)
    ensures OneEach(TableOf(log))
  {
    assert log[..|log|] == log;
  }

  lemma EffectKeepsInv(g: Geometry, s: Ring, c: nat, e: Effect)
    requires Inv(g, s) && c < |s.clients| && Legal(s, s.clients[c], e)
    ensures Inv(g, Apply(s, c, e))
  {
    hide Owned, DrainerOk, LiveOk, PastOk, Counts, PassOk, Routed, RespectsOwners, KeepsBooks, TellsStory;
    EffectKeepsOwned(s, c, e);
    EffectKeepsCounts(s, c, e);
    EffectKeepsDrainer(s, c, e);
    EffectKeepsLive(s, c, e);
    EffectKeepsPast(s, c, e);
    EffectKeepsPass(s, c, e);
    EffectKeepsRouted(s, c, e);
  }

  lemma OwnedClient(s: Ring, c: nat)
    requires Owned(s) && c < |s.clients|
    ensures ClientOk(s.slots, s.clients[c])
  {
  }

  lemma ClientKeepsInv(g: Geometry, s: Ring, c: nat, a: Action)
    requires Inv(g, s) && c < |s.clients|
    ensures Inv(g, Apply(s, c, ClientEffect(g, s, s.clients[c], a)))
  {
    hide Owned, DrainerOk, Tickets, Counts, PassOk, Routed, Legal, ClientEffect, ClientOk;
    OwnedClient(s, c);
    ClientLegal(g, s, s.clients[c], a);
    EffectKeepsInv(g, s, c, ClientEffect(g, s, s.clients[c], a));
  }

  // ------------------------------------------------ the event loop keeps Inv

  /** What a drain step may write: its own slot, from READY to DRAINING or from DRAINING to FREE. */
  predicate DrainWrites(s: Ring, e: DrainEffect) {
    match e.write
    case NoWrite => true
    case Write(i, slot) =>
      && i < |s.slots| && slot.ticket == s.slots[i].ticket && slot.data == s.slots[i].data
      && ((s.slots[i].state.Ready? && slot.state.Draining? && e.event == Some(DidTake(slot.ticket)))
          || (s.slots[i].state.Draining? && slot.state.Free? && e.event == Some(DidFree(slot.ticket))))
  }

  lemma DrainWritesLegally(g: Geometry, s: Ring)
    requires DrainerOk(s)
    ensures DrainWrites(s, DrainEffectOf(g, s))
  {
  }

  lemma DrainKeepsOwned(s: Ring, e: DrainEffect)
    requires Owned(s) && DrainWrites(s, e)
    ensures Owned(ApplyDrain(s, e))
  {
    var s' := ApplyDrain(s, e);
    forall c | 0 <= c < |s'.clients| ensures ClientOk(s'.slots, s'.clients[c]) {
      assert ClientOk(s.slots, s.clients[c]);
    }
  }

  lemma DrainKeepsDrainer(g: Geometry, s: Ring)
    requires DrainerOk(s)
    ensures DrainerOk(DrainNext(g, s))
  {
  }

  lemma DrainKeepsCounts(g: Geometry, s: Ring)
    requires DrainerOk(s) && Counts(s)
    ensures Counts(DrainNext(g, s))
  {
    var e := DrainEffectOf(g, s);
    CountWrite(s, e.write, IsClaimed);
    CountWrite(s, e.write, IsReadyOrDraining);
  }

  lemma HistoryAfterDrain(s: Ring, e: DrainEffect, t: nat)
    ensures History(ApplyDrain(s, e).log, t)
         == History(s.log, t) + (if e.event.Some? && Concerns(e.event.value, t) then [e.event.value] else [])
  {
    if e.event.Some? {
      HistoryAppend(s.log, e.event.value, t);
    }
  }

  /** The slot a drain step is about to free or deliver. */
  predicate AtSlot(s: Ring, i: int) {
    && 0 <= i < |s.slots|
    && (s.drainer == Deliver(i) || s.drainer == StoreFree(i) || (s.drainer == Scan(i) && s.slots[i].state.Ready?))
  }

  /** The claim in the drainer's slot advances one event; every other claim keeps its history. */
  lemma DrainStory(g: Geometry, s: Ring, i: nat)
    requires i < |s.slots| && !s.slots[i].state.Free? && LiveOk(s) && DrainerOk(s)
    ensures var h := History(s.log, s.slots[i].ticket);
            var h' := History(DrainNext(g, s).log, s.slots[i].ticket);
            if AtSlot(s, i) then DrainEffectOf(g, s).event.Some? && h' == h + [DrainEffectOf(g, s).event.value]
            else h' == h
  {
    hide DrainEffectOf, AtSlot, LiveOk, DrainerOk, Concerns;
    DrainConcerns(g, s, i);
    HistoryAfterDrain(s, DrainEffectOf(g, s), s.slots[i].ticket);
  }

  /** A drain step logs something about a live slot's claim exactly when it is at that slot. */
  lemma DrainConcerns(g: Geometry, s: Ring, i: nat)
    requires i < |s.slots| && !s.slots[i].state.Free? && LiveOk(s) && DrainerOk(s)
    ensures var e := DrainEffectOf(g, s);
            e.event.Some? && Concerns(e.event.value, s.slots[i].ticket) <==> AtSlot(s, i)
  {
    hide LiveSlot, Route;
  }

  lemma DrainKeepsLive(g: Geometry, s: Ring)
    requires LiveOk(s) && DrainerOk(s)
    ensures LiveOk(DrainNext(g, s))
  {
    var s' := DrainNext(g, s);
    DrainWritesLegally(g, s);
    forall i | 0 <= i < |s'.slots| && !s'.slots[i].state.Free?
      ensures LiveSlot(s', i)
    {
      assert LiveSlot(s, i);
      DrainStory(g, s, i);
    }
  }

  lemma DrainKeepsPast(g: Geometry, s: Ring)
    requires Tickets(s) && DrainerOk(s)
    ensures PastOk(DrainNext(g, s))
  {
    var s', e := DrainNext(g, s), DrainEffectOf(g, s);
    DrainWritesLegally(g, s);
    forall t: nat | t >= s'.tickets ensures History(s'.log, t) == [] {
      HistoryAfterDrain(s, e, t);
    }
    forall t: nat | t < s'.tickets
      ensures Closed(History(s'.log, t), t) || exists i :: LiveAt(s', i, t)
    {
      if exists i :: LiveAt(s, i, t) {
        var i :| LiveAt(s, i, t);
        LiveThroughDrain(g, s, i, t);
      } else {
        HistoryAfterDrain(s, e, t);
      }
    }
  }

  lemma LiveThroughDrain(g: Geometry, s: Ring, i: int, t: nat)
    requires Tickets(s) && DrainerOk(s) && LiveAt(s, i, t)
    ensures var s' := DrainNext(g, s); Closed(History(s'.log, t), t) || LiveAt(s', i, t)
  {
    DrainWritesLegally(g, s);
    DrainStory(g, s, i);
  }

  lemma PassBegins(g: Geometry, s: Ring)
    requires Counts(s) && s.drainer.LoadReady?
    ensures PassOk(DrainNext(g, s))
  {
    if s.ready == 0 {
      NoReadyWhenZero(s);
    }
  }

  lemma PassGoesOnAt(g: Geometry, s: Ring, j: nat, t: nat)
    requires Tickets(s) && DrainerOk(s) && j < |s.slots|
    ensures AheadAt(s, j, t) ==>
              if j < Behind(DrainNext(g, s)) then WasFreed(DrainNext(g, s), t) else AheadAt(DrainNext(g, s), j, t)
    ensures WasFreed(s, t) ==> WasFreed(DrainNext(g, s), t)
  {
    hide AheadAt, WasFreed, LiveOk, DrainerOk, DrainNext, Behind;
    if WasFreed(s, t) {
      FreedStays(g, s, t);
    }
    if AheadAt(s, j, t) {
      AheadGoesOn(g, s, j, t);
    }
  }

  lemma AheadGoesOn(g: Geometry, s: Ring, j: nat, t: nat)
    requires Tickets(s) && DrainerOk(s) && j < |s.slots| && AheadAt(s, j, t)
    ensures if j < Behind(DrainNext(g, s)) then WasFreed(DrainNext(g, s), t) else AheadAt(DrainNext(g, s), j, t)
  {
    hide PastOk, Closed;
    assert LiveSlot(s, j);
    DrainStory(g, s, j);
    if !(s.drainer == StoreFree(j)) {
      AheadStays(g, s, j, t);
    }
  }

  /** Only freeing slot j ends the wait of the claim in it. */
  lemma AheadStays(g: Geometry, s: Ring, j: nat, t: nat)
    requires DrainerOk(s) && AheadAt(s, j, t) && s.drainer != StoreFree(j)
    ensures AheadAt(DrainNext(g, s), j, t)
  {
    hide History, Route, ReadyTickets;
  }

  lemma FreedStays(g: Geometry, s: Ring, t: nat)
    requires LiveOk(s) && DrainerOk(s) && WasFreed(s, t)
    ensures WasFreed(DrainNext(g, s), t)
  {
    HistoryAfterDrain(s, DrainEffectOf(g, s), t);
  }

  lemma PassGoesOn(g: Geometry, s: Ring)
    requires Tickets(s) && DrainerOk(s) && PassOk(s) && !s.drainer.LoadReady?
    ensures PassOk(DrainNext(g, s))
  {
    forall j | 0 <= j < |s.slots| && s.snapshot[j].Some?
      ensures PassAt(DrainNext(g, s), j, s.snapshot[j].value)
    {
      PassGoesOnAt(g, s, j, s.snapshot[j].value);
    }
  }

  /**
    The drainer's early return never skips work: when the counter reads zero no
    slot is READY or DRAINING, and no publisher is past its increment.
  */
  lemma NoReadyWhenZero(s: Ring)
    requires Counts(s) && s.ready == 0
    ensures forall i :: 0 <= i < |s.slots| ==> !s.slots[i].state.Ready? && !s.slots[i].state.Draining?
    ensures forall c :: 0 <= c < |s.clients| ==> !PastReadyIncrement(s.clients[c])
    ensures !s.drainer.UncountReady?
  {
    CountPositive(s.slots, IsReadyOrDraining);
    CountPositive(s.clients, PastReadyIncrement);
    forall i | 0 <= i < |s.slots| ensures !IsReadyOrDraining(s.slots[i]) {
    }
  }

  lemma RouteIsRegistered(g: Geometry, s: Ring, i: nat)
    requires i < |s.slots| && Route(g, s, i).Some?
    ensures var d := s.slots[i].data;
            d.requestSeq in s.requests && s.requests[d.requestSeq] == Registration(Route(g, s, i).value, d.moduleId)
  {
  }

  /** What the drainer logs leaves the table alone, and a send goes where the table says. */
  lemma DrainLogsRouted(g: Geometry, s: Ring)
    requires DrainEffectOf(g, s).event.Some?
    ensures var e := DrainEffectOf(g, s).event.value;
            && !e.DidInstall? && !e.DidRemove?
            && (e.DidRead? && e.sentTo.Some? ==>
                  e.data.requestSeq in s.requests
                  && s.requests[e.data.requestSeq] == Registration(e.sentTo.value, e.data.moduleId))
  {
    hide Route;
    var e := DrainEffectOf(g, s).event.value;
    if e.DidRead? && e.sentTo.Some? {
      RouteIsRegistered(g, s, s.drainer.index);
    }
  }

  lemma DrainKeepsRouted(g: Geometry, s: Ring)
    requires Routed(s)
    ensures Routed(DrainNext(g, s))
  {
    hide LogRouted, DrainEffectOf, TableOf, OneEach;
    if DrainEffectOf(g, s).event.Some? {
      DrainLogsRouted(g, s);
      TableIsRouted(s.log);
      AppendRouted(s.log, DrainEffectOf(g, s).event.value);
    }
  }

  lemma DrainKeepsInv(g: Geometry, s: Ring)
    requires Inv(g, s)
    ensures Inv(g, DrainNext(g, s))
  {
    hide Owned, DrainerOk, LiveOk, PastOk, Counts, PassOk, Routed, DrainWrites, DrainEffectOf;
    DrainWritesLegally(g, s);
    DrainKeepsOwned(s, DrainEffectOf(g, s));
    DrainKeepsDrainer(g, s);
    DrainKeepsCounts(g, s);
    DrainKeepsLive(g, s);
    DrainKeepsPast(g, s);
    if s.drainer.LoadReady? {
      PassBegins(g, s);
    } else {
      PassGoesOn(g, s);
    }
    DrainKeepsRouted(g, s);
  }

  /** Steps that touch only the request table or the accept flag. */
  lemma TableStepKeepsInv(g: Geometry, s: Ring, step: Step)
    requires Inv(g, s) && Enabled(s, step) && (step.Install? || step.Remove?)
    ensures Inv(g, Next(g, s, step))
  {
    hide Tickets, PassOk, Owned, Counts, DrainerOk, LogRouted;
    var s' := Next(g, s, step);
    var e := s'.log[|s.log|];
    assert s'.log == s.log + [e];
    SameTickets(s, s', e);
    SameCounts(s, s');
    TableIsRouted(s.log);
    assert OneEach(TableAfter(TableOf(s.log), e));
    AppendRouted(s.log, e);
  }

  lemma SameCounts(s: Ring, s': Ring)
    requires Owned(s) && Counts(s) && DrainerOk(s)
    requires s' == s.(requests := s'.requests, log := s'.log)
    ensures Owned(s') && Counts(s') && DrainerOk(s')
  {
  }

  lemma SameTickets(s: Ring, s': Ring, e: Event)
    requires Tickets(s) && PassOk(s) && (e.DidInstall? || e.DidRemove?)
    requires s' == s.(requests := s'.requests, log := s.log + [e])
    ensures Tickets(s') && PassOk(s')
  {
    forall t: nat ensures History(s'.log, t) == History(s.log, t) {
      HistoryAppend(s.log, e, t);
    }
    forall t: nat, i | LiveAt(s, i, t) ensures LiveAt(s', i, t) {
    }
  }

  lemma RefuseKeepsInv(g: Geometry, s: Ring)
    requires Inv(g, s)
    ensures Inv(g, Next(g, s, Refuse))
  {
    forall t: nat, i | LiveAt(s, i, t) ensures LiveAt(Next(g, s, Refuse), i, t) {
    }
  }

  lemma StepKeepsInv(g: Geometry, s: Ring, step: Step)
    requires Inv(g, s) && Enabled(s, step)
    ensures Inv(g, Next(g, s, step))
  {
    match step
    case ClientStep(c, a) => ClientKeepsInv(g, s, c, a);
    case DrainStep => DrainKeepsInv(g, s);
    case Refuse => RefuseKeepsInv(g, s);
    case _ => TableStepKeepsInv(g, s, step);
  }

  lemma InitialInv(g: Geometry, s: Ring)
    requires Initial(g, s)
    ensures Inv(g, s)
  {
    CountPositive(s.slots, IsClaimed);
    CountPositive(s.slots, IsReadyOrDraining);
    CountPositive(s.clients, Owns);
    CountPositive(s.clients, Counted);
    CountPositive(s.clients, PastReadyIncrement);
  }

  lemma {:induction false} RunKeepsInv(g: Geometry, before: Ring, steps: seq<Step>, after: Ring)
    requires Inv(g, before) && Runs(g, before, steps, after)
    ensures Inv(g, after)
    decreases |steps|
  {
    if steps != [] {
      StepKeepsInv(g, before, steps[0]);
      RunKeepsInv(g, Next(g, before, steps[0]), steps[1..], after);
    }
  }

  /** The invariant holds in every reachable state of every interleaving. */
  lemma ReachableInv(g: Geometry, s: Ring)
    requires Reachable(g, s)
    ensures Inv(g, s)
  {
    var start, steps :| Initial(g, start) && Runs(g, start, steps, s);
    InitialInv(g, start);
    RunKeepsInv(g, start, steps, s);
  }
}
