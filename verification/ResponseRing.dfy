/**
  The lock-free response ring as a step relation.

  Every step is one atomic operation of one activity, in any interleaving.
  A client is one activity that may hold one claim handle; a thread that holds
  several handles is several clients.  The event loop runs the drainer and
  changes the request table.  The log, the tickets and the snapshot are history
  variables: no step reads them.
*/
module ResponseRing {
  import opened Wrappers
  import opened SlotLayout
  import opened Numbers
  import Handles

  datatype SlotState = Free | Claimed | Ready | Draining

  /** `ticket` is history: the number of the claim that last took this slot. */
  datatype Slot = Slot(state: SlotState, token: nat, data: SlotData, ticket: nat)

  /** A handle in a client's hands, its ticket, and the data the client last packed. */
  datatype Hold = Hold(handle: nat, ticket: nat, packed: SlotData)

  /** The operations left to a claim that has won its slot. */
  datatype WinStep = ClearModule | TakeSequence | StoreToken | CountClaim

  /** Where the holder of a handle stands: between calls, or at an operation of publish or abort. */
  datatype HoldStep =
    | Idle
    | PublishLookup
    | PublishLoadAccepts
    | PublishValidate
    | PublishCountReady
    | PublishCas
    | PublishUncountReady
    | PublishUncountClaim
    | MustAbort   // publish has returned 0, only abort is left
    | AbortLookup
    | AbortCas
    | AbortUncountClaim

  /** Where a client stands: its next atomic operation. */
  datatype Client =
    | Outside
    | LoadAccepts
    | TakeCursor
    | TryCas(start: nat, attempt: nat)
    | Winning(step: WinStep, index: nat, ticket: nat, handle: nat)
    | With(hold: Hold, at: HoldStep)

  /** What a client that holds a handle chooses to do next. */
  datatype Action = Pack(data: SlotData) | Publish | Abort

  datatype Drainer =
    | Resting
    | LoadReady
    | Scan(next: nat)
    | Deliver(index: nat)
    | StoreFree(index: nat)
    | UncountReady(index: nat)

  datatype Registration = Registration(ctx: nat, moduleId: Word)

  datatype Event =
    | DidClaim(ticket: nat)
    | DidAbort(ticket: nat)
    | DidPublish(ticket: nat, data: SlotData)
    | DidTake(ticket: nat)
    | DidRead(ticket: nat, data: SlotData, sentTo: Option<nat>)
    | DidFree(ticket: nat)
    | DidInstall(requestSeq: Word, registration: Registration)
    | DidRemove(requestSeq: Word)

  datatype Ring = Ring(
    slots: seq<Slot>, claimed: int, ready: int, cursor: nat, sequence: nat, accepts: bool,
    clients: seq<Client>, drainer: Drainer, requests: map<Word, Registration>,
    log: seq<Event>, tickets: nat, snapshot: seq<Option<nat>>)

  datatype Step =
    | ClientStep(client: nat, action: Action)
    | DrainStep
    | Install(requestSeq: Word, registration: Registration)
    | Remove(requestSeq: Word)
    | Refuse

  // ------------------------------------------------------------- operations

  datatype Write = NoWrite | Write(index: nat, slot: Slot)

  /** What one atomic operation of a client does to the shared state. */
  datatype Effect = Effect(
    next: Client, write: Write, claimedBy: int, readyBy: int,
    bumpCursor: bool, bumpSequence: bool, event: Option<Event>)

  /** The client moves on and nothing shared changes. */
  function Quiet(next: Client): Effect {
    Effect(next, NoWrite, 0, 0, false, false, None)
  }

  function Bump(counter: nat, bump: bool): nat {
    if bump then (counter + 1) % WORDS else counter
  }

  function PutSlot(slots: seq<Slot>, w: Write): (slots': seq<Slot>)
    ensures |slots'| == |slots|
  {
    if w.Write? && w.index < |slots| then slots[w.index := w.slot] else slots
  }

  function Record(log: seq<Event>, event: Option<Event>): seq<Event> {
    if event.Some? then log + [event.value] else log
  }

  function Apply(s: Ring, c: nat, e: Effect): Ring
    requires c < |s.clients|
  {
    s.(slots := PutSlot(s.slots, e.write),
       claimed := s.claimed + e.claimedBy,
       ready := s.ready + e.readyBy,
       cursor := Bump(s.cursor, e.bumpCursor),
       sequence := Bump(s.sequence, e.bumpSequence),
       clients := s.clients[c := e.next],
       log := Record(s.log, e.event),
       tickets := s.tickets + (if e.event.Some? && e.event.value.DidClaim? then 1 else 0))
  }

  /** The slot a handle names, or none: zero field, out of range, or another claim's token. */
  function SlotFromHandle(s: Ring, handle: nat): (index: Option<nat>)
    ensures index.Some? ==> index.value < |s.slots|
  {
    var field := Handles.IndexField(handle);
    if handle == 0 || field == 0 || field - 1 >= |s.slots| || s.slots[field - 1].token != handle
    then None else Some(field - 1)
  }

  /** The slot a claim scan looks at; the addition is in machine words. */
  function ScanIndex(start: nat, attempt: nat, capacity: nat): (index: nat)
    requires capacity > 0
    ensures index < capacity
  {
    ((start + attempt) % WORDS) % capacity
  }

  function ClaimEffect(s: Ring, k: Client): Effect {
    match k
    case Outside => Quiet(LoadAccepts)
    case LoadAccepts =>
      Quiet(if !s.accepts || |s.slots| == 0 then Outside else TakeCursor)
    case TakeCursor => Quiet(TryCas(s.cursor, 0)).(bumpCursor := true)
    case TryCas(start, attempt) =>
      if attempt >= |s.slots| then Quiet(Outside)
      else
        var i := ScanIndex(start, attempt, |s.slots|);
        if s.slots[i].state.Free? then
          Quiet(Winning(ClearModule, i, s.tickets, 0)).(
            write := Write(i, s.slots[i].(state := Claimed, ticket := s.tickets)),
            event := Some(DidClaim(s.tickets)))
        else Quiet(TryCas(start, attempt + 1))
    case _ => Quiet(k)
  }

  /** The rest of a claim whose compare-and-swap succeeded on slot `k.index`. */
  function WinEffect(s: Ring, k: Client): Effect
    requires k.Winning? && k.index < |s.slots|
  {
    var i := k.index;
    match k.step
    case ClearModule =>
      Quiet(k.(step := TakeSequence)).(write := Write(i, s.slots[i].(data := s.slots[i].data.(moduleId := 0))))
    case TakeSequence =>
      Quiet(k.(step := StoreToken, handle := Handles.HandleOf(Handles.SequenceField(s.sequence), i)))
        .(bumpSequence := true)
    case StoreToken =>
      Quiet(k.(step := CountClaim)).(write := Write(i, s.slots[i].(token := k.handle)))
    case CountClaim =>
      Quiet(With(Hold(k.handle, k.ticket, s.slots[i].data), Idle)).(claimedBy := 1)
  }

  /** A client with a handle packs its slot, or makes its one publish or abort call. */
  function IdleEffect(s: Ring, o: Hold, a: Action): Effect {
    match a
    case Pack(d) =>
      var i := Handles.IndexField(o.handle) - 1;
      if 0 <= i < |s.slots| then
        Quiet(With(o.(packed := d), Idle)).(write := Write(i, s.slots[i].(data := d)))
      else Quiet(With(o, Idle))
    case Publish => Quiet(With(o, PublishLookup))
    case Abort => Quiet(With(o, AbortLookup))
  }

  function HolderEffect(g: Geometry, s: Ring, o: Hold, at: HoldStep, a: Action): Effect {
    var i := Handles.IndexField(o.handle) - 1;
    match at
    case Idle => IdleEffect(s, o, a)
    case PublishLookup =>
      Quiet(With(o, if SlotFromHandle(s, o.handle).None? then MustAbort else PublishLoadAccepts))
    case PublishLoadAccepts => Quiet(With(o, if s.accepts then PublishValidate else MustAbort))
    case PublishValidate =>
      Quiet(With(o, if 0 <= i < |s.slots| && SlotDataValid(g, i, s.slots[i].data) then PublishCountReady
                 else MustAbort))
    case PublishCountReady => Quiet(With(o, PublishCas)).(readyBy := 1)
    case PublishCas =>
      if 0 <= i < |s.slots| && s.slots[i].state.Claimed? then
        Quiet(With(o, PublishUncountClaim)).(
          write := Write(i, s.slots[i].(state := Ready)),
          event := Some(DidPublish(o.ticket, o.packed)))
      else Quiet(With(o, PublishUncountReady))
    case PublishUncountReady => Quiet(With(o, MustAbort)).(readyBy := -1)
    case PublishUncountClaim => Quiet(Outside).(claimedBy := -1)
    case MustAbort => Quiet(With(o, AbortLookup))
    case AbortLookup =>
      Quiet(if SlotFromHandle(s, o.handle).None? then Outside else With(o, AbortCas))
    case AbortCas =>
      if 0 <= i < |s.slots| && s.slots[i].state.Claimed? then
        Quiet(With(o, AbortUncountClaim)).(
          write := Write(i, s.slots[i].(state := Free)),
          event := Some(DidAbort(o.ticket)))
      else Quiet(Outside)
    case AbortUncountClaim => Quiet(Outside).(claimedBy := -1)
  }

  function ClientEffect(g: Geometry, s: Ring, k: Client, a: Action): Effect {
    match k
    case With(o, at) => HolderEffect(g, s, o, at, a)
    case Winning(_, i, _, _) => if i < |s.slots| then WinEffect(s, k) else Quiet(k)
    case _ => ClaimEffect(s, k)
  }

  /** The context a drained response is sent to: valid data whose request is still registered. */
  function Route(g: Geometry, s: Ring, i: nat): Option<nat>
    requires i < |s.slots|
  {
    var d := s.slots[i].data;
    if SlotDataValid(g, i, d) && d.requestSeq in s.requests && s.requests[d.requestSeq].moduleId == d.moduleId
    then Some(s.requests[d.requestSeq].ctx)
    else None
  }

  /** The tickets that are READY, slot by slot. */
  function ReadyTickets(slots: seq<Slot>): (ts: seq<Option<nat>>)
    ensures |ts| == |slots|
    ensures forall j :: 0 <= j < |slots| ==>
              ts[j] == if slots[j].state.Ready? then Some(slots[j].ticket) else None
  {
    seq(|slots|, j requires 0 <= j < |slots| => if slots[j].state.Ready? then Some(slots[j].ticket) else None)
  }

  /** What one operation of the drainer does to the shared state. */
  datatype DrainEffect = DrainEffect(next: Drainer, write: Write, readyBy: int, event: Option<Event>)

  function DrainEffectOf(g: Geometry, s: Ring): DrainEffect {
    match s.drainer
    case Resting => DrainEffect(LoadReady, NoWrite, 0, None)
    case LoadReady =>
      DrainEffect(if |s.slots| == 0 || s.ready == 0 then Resting else Scan(0), NoWrite, 0, None)
    case Scan(i) =>
      if i >= |s.slots| then DrainEffect(Resting, NoWrite, 0, None)
      else if s.slots[i].state.Ready? then
        DrainEffect(Deliver(i), Write(i, s.slots[i].(state := Draining)), 0, Some(DidTake(s.slots[i].ticket)))
      else DrainEffect(Scan(i + 1), NoWrite, 0, None)
    case Deliver(i) =>
      if i < |s.slots| then
        DrainEffect(StoreFree(i), NoWrite, 0, Some(DidRead(s.slots[i].ticket, s.slots[i].data, Route(g, s, i))))
      else DrainEffect(s.drainer, NoWrite, 0, None)
    case StoreFree(i) =>
      if i < |s.slots| then
        DrainEffect(UncountReady(i), Write(i, s.slots[i].(state := Free)), 0, Some(DidFree(s.slots[i].ticket)))
      else DrainEffect(s.drainer, NoWrite, 0, None)
    case UncountReady(i) => DrainEffect(Scan(i + 1), NoWrite, -1, None)
  }

  /** A pass begins when the drainer loads the ready counter; that is when the snapshot is taken. */
  function ApplyDrain(s: Ring, e: DrainEffect): Ring {
    s.(slots := PutSlot(s.slots, e.write),
       ready := s.ready + e.readyBy,
       drainer := e.next,
       log := Record(s.log, e.event),
       snapshot := if s.drainer.LoadReady? then ReadyTickets(s.slots) else s.snapshot)
  }

  function DrainNext(g: Geometry, s: Ring): Ring {
    ApplyDrain(s, DrainEffectOf(g, s))
  }

  predicate Enabled(s: Ring, step: Step) {
    match step
    case ClientStep(c, _) => c < |s.clients|
    case DrainStep => true
    case Install(q, r) =>
      && s.accepts && q != 0 && r.moduleId != 0
      && q !in s.requests && forall k :: k in s.requests ==> s.requests[k].ctx != r.ctx
    case Remove(q) => q in s.requests
    case Refuse => true
  }

  function Next(g: Geometry, s: Ring, step: Step): Ring
    requires Enabled(s, step)
  {
    match step
    case ClientStep(c, a) => Apply(s, c, ClientEffect(g, s, s.clients[c], a))
    case DrainStep => DrainNext(g, s)
    case Install(q, r) => s.(requests := s.requests[q := r], log := s.log + [DidInstall(q, r)])
    case Remove(q) => s.(requests := s.requests - {q}, log := s.log + [DidRemove(q)])
    case Refuse => s.(accepts := false)
  }

  /** A freshly created ring, with any number of clients that have not called it yet. */
  ghost predicate Initial(g: Geometry, s: Ring) {
    && g.Valid() && |s.slots| == g.capacity
    && (forall i :: 0 <= i < |s.slots| ==> s.slots[i].state.Free? && s.slots[i].token == 0)
    && s.claimed == 0 && s.ready == 0 && s.cursor == 0 && s.sequence == 0 && s.accepts
    && (forall c :: 0 <= c < |s.clients| ==> s.clients[c] == Outside)
    && s.drainer == Resting && s.requests == map[]
    && s.log == [] && s.tickets == 0 && s.snapshot == ReadyTickets(s.slots)
  }

  /** `after` is reached from `before` by taking `steps` one at a time. */
  ghost predicate Runs(g: Geometry, before: Ring, steps: seq<Step>, after: Ring)
    decreases |steps|
  {
    if steps == [] then after == before
    else Enabled(before, steps[0]) && Runs(g, Next(g, before, steps[0]), steps[1..], after)
  }

  ghost predicate Reachable(g: Geometry, s: Ring) {
    exists start: Ring, steps: seq<Step> :: Initial(g, start) && Runs(g, start, steps, s)
  }
}
