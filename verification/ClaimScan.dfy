/**
  `try_claim` on its own, without interference: when does its scan fail to find a
  FREE slot?
*/
module ClaimScan {
  import opened Wrappers
  import opened SlotLayout
  import opened ResponseRing
  import opened Bits
  import opened Numbers
  import Handles

  /** Some attempt of the scan that starts at cursor `start` looks at slot `i`. */
  ghost predicate Visits(start: nat, capacity: nat, i: nat)
    requires capacity > 0
  {
    exists attempt :: 0 <= attempt < capacity && ScanIndex(start, attempt, capacity) == i
  }

  ghost predicate VisitsEvery(start: nat, capacity: nat)
    requires capacity > 0
  {
    forall i :: 0 <= i < capacity ==> Visits(start, capacity, i)
  }

  /** The cursor does not wrap during the scan, or wrapping keeps the slots aligned. */
  predicate CoversRing(start: nat, capacity: nat)
    requires capacity > 0
  {
    start + capacity <= WORDS || WORDS % capacity == 0
  }

  lemma ModOfSum(x: nat, y: nat, m: nat)
    requires m > 0
    ensures (x + y) % m == (x % m + y) % m
  {
    var q, r := x / m, x % m;
    var q', r' := (r + y) / m, (r + y) % m;
    assert x + y == m * (q + q') + r';
    RemainderUnique(x + y, m, q + q', r');
  }

  lemma ModTwice(x: nat, m: nat)
    requires 0 < m && WORDS % m == 0
    ensures (x % WORDS) % m == x % m
  {
    var q, r := x / WORDS, x % WORDS;
    var k := WORDS / m;
    assert x == WORDS * q + r && WORDS == m * k;
    assert x == m * (k * q) + r by {
      assert (m * k) * q == m * (k * q);
    }
    var q', r' := r / m, r % m;
    assert x == m * (k * q + q') + r';
    RemainderUnique(x, m, k * q + q', r');
  }

  lemma SmallMod(x: nat, m: nat)
    requires x < m
    ensures x % m == x
  {
  }

  /** In step with the ring, the machine-word addition of the scan is not noticed. */
  lemma ScanInStep(start: nat, capacity: nat, attempt: nat)
    requires 0 < capacity && start < WORDS && attempt < capacity && CoversRing(start, capacity)
    ensures ScanIndex(start, attempt, capacity) == (start + attempt) % capacity
  {
    if start + capacity <= WORDS {
      SmallMod(start + attempt, WORDS);
    } else {
      ModTwice(start + attempt, capacity);
    }
  }

  lemma RotationReaches(s: nat, capacity: nat, i: nat) returns (attempt: nat)
    requires s < capacity && i < capacity
    ensures attempt < capacity && (s + attempt) % capacity == i
  {
    attempt := if i >= s then i - s else i - s + capacity;
    RemainderUnique(s + attempt, capacity, if i >= s then 0 else 1, i);
  }

  lemma ScanReaches(start: nat, capacity: nat, i: nat)
    requires 0 < capacity && start < WORDS && i < capacity && CoversRing(start, capacity)
    ensures Visits(start, capacity, i)
  {
    var attempt := RotationReaches(start % capacity, capacity, i);
    ModOfSum(start, attempt, capacity);
    ScanInStep(start, capacity, attempt);
  }

  /** A slot the scan never looks at when the cursor wraps out of step. */
  function Skipped(start: nat, capacity: nat): nat
    requires 0 < capacity && start < WORDS < start + capacity
  {
    var k, r := WORDS - start, WORDS % capacity;
    if 0 < r <= k then capacity - k + r - 1 else capacity - 1
  }

  lemma ScanSkips(start: nat, capacity: nat, attempt: nat)
    requires 0 < capacity <= UINT16_MAX && start < WORDS < start + capacity && WORDS % capacity != 0
    requires attempt < capacity
    ensures Skipped(start, capacity) < capacity
    ensures ScanIndex(start, attempt, capacity) != Skipped(start, capacity)
  {
    var k, r := WORDS - start, WORDS % capacity;
    if attempt < k {
      var b := k - attempt;
      assert start + attempt == WORDS - b;
      SmallMod(start + attempt, WORDS);
      var q := WORDS / capacity;
      assert WORDS == capacity * q + r;
      if b <= r {
        RemainderUnique(WORDS - b, capacity, q, r - b);
      } else {
        assert WORDS - b == capacity * (q - 1) + (r - b + capacity);
        RemainderUnique(WORDS - b, capacity, q - 1, r - b + capacity);
      }
    } else {
      RemainderUnique(start + attempt, WORDS, 1, attempt - k);
      SmallMod(attempt - k, capacity);
    }
  }

  /**
    The rotated scan looks at every slot exactly when the cursor does not wrap
    within it or the ring size divides the cursor's range.
  */
  lemma ScanCoversExactly(start: nat, capacity: nat)
    requires 0 < capacity <= UINT16_MAX && start < WORDS
    ensures VisitsEvery(start, capacity) <==> CoversRing(start, capacity)
  {
    if CoversRing(start, capacity) {
      forall i | 0 <= i < capacity ensures Visits(start, capacity, i) {
        ScanReaches(start, capacity, i);
      }
    } else {
      var missed := Skipped(start, capacity);
      forall attempt | 0 <= attempt < capacity
        ensures ScanIndex(start, attempt, capacity) != missed && missed < capacity
      {
        ScanSkips(start, capacity, attempt);
      }
      assert missed < capacity by { ScanSkips(start, capacity, 0); }
      assert !Visits(start, capacity, missed);
    }
  }

  /** What claiming reads and writes, as one value. */
  datatype Solo = Solo(
    states: seq<SlotState>, tokens: seq<nat>, cursor: nat, sequence: nat, claimed: int, accepts: bool)
  {
    predicate Valid() {
      0 < |states| <= UINT16_MAX && |tokens| == |states| && cursor < WORDS
    }
  }

  /** The first FREE slot the scan meets from `attempt` on. */
  function FindFree(states: seq<SlotState>, start: nat, attempt: nat): Option<nat>
    decreases |states| - attempt
  {
    if attempt >= |states| then None
    else if states[ScanIndex(start, attempt, |states|)].Free? then Some(ScanIndex(start, attempt, |states|))
    else FindFree(states, start, attempt + 1)
  }

  /** The state after a claim, and the handle returned. */
  function Claim(v: Solo): (Solo, nat)
    requires v.Valid()
  {
    if !v.accepts then (v, 0)
    else
      var w := v.(cursor := Bump(v.cursor, true));
      match FindFree(v.states, v.cursor, 0)
      case None => (w, 0)
      case Some(i) =>
        var h := Handles.HandleOf(Handles.SequenceField(v.sequence), i);
        if i < |v.states| then
          (w.(states := v.states[i := Claimed], tokens := v.tokens[i := h],
              sequence := Bump(v.sequence, true), claimed := v.claimed + 1), h)
        else (w, 0)
  }

  lemma {:induction false} FindFreeExact(states: seq<SlotState>, start: nat, attempt: nat)
    ensures var r := FindFree(states, start, attempt);
            && (r.Some? ==> r.value < |states| && states[r.value].Free?)
            && (r.None? ==> forall a :: attempt <= a < |states| ==> !states[ScanIndex(start, a, |states|)].Free?)
            && (r.None? <== attempt >= |states| || forall i :: 0 <= i < |states| ==> !states[i].Free?)
    decreases |states| - attempt
  {
    if attempt < |states| {
      FindFreeExact(states, start, attempt + 1);
    }
  }

  /**
    Alone, a claim whose scan covers the ring fails exactly when claims are
    refused or no slot is FREE; its handle decodes to a slot that was FREE and
    is now CLAIMED, and nothing else changed hands.  Only a claim that is let in
    moves the cursor, and only one that succeeds takes a sequence number.
  */
  lemma ClaimFailsOnlyWhenFull(v: Solo)
    requires v.Valid() && CoversRing(v.cursor, |v.states|)
    ensures var (w, h) := Claim(v);
            && (h == 0 <==> !v.accepts || forall i :: 0 <= i < |v.states| ==> !v.states[i].Free?)
            && (h != 0 ==>
                  var i := Handles.IndexField(h) - 1;
                  && 0 <= i < |v.states| && v.states[i].Free? && w.states == v.states[i := Claimed]
                  && w.tokens == v.tokens[i := h] && w.claimed == v.claimed + 1)
            && (h == 0 ==> w.states == v.states && w.tokens == v.tokens && w.claimed == v.claimed)
            && w.accepts == v.accepts
            && w.cursor == (if v.accepts then (v.cursor + 1) % WORDS else v.cursor)
            && w.sequence == (if h != 0 then (v.sequence + 1) % WORDS else v.sequence)
  {
    FindFreeExact(v.states, v.cursor, 0);
    match FindFree(v.states, v.cursor, 0)
    case Some(i) => Handles.HandleDecodes(v.sequence, i);
    case None =>
      if v.accepts {
        ScanCoversExactly(v.cursor, |v.states|);
        forall i | 0 <= i < |v.states| ensures !v.states[i].Free? {
          assert Visits(v.cursor, |v.states|, i);
        }
      }
  }

  /** When the cursor wraps out of step, a claim can fail although a slot is FREE. */
  lemma ClaimCanMissFreeSlot(v: Solo)
    requires v.Valid() && !CoversRing(v.cursor, |v.states|)
    requires var missed := Skipped(v.cursor, |v.states|);
             missed < |v.states| && v.states == seq(|v.states|, _ => Claimed)[missed := Free]
    ensures Claim(v).1 == 0 && exists i :: 0 <= i < |v.states| && v.states[i].Free?
  {
    var missed := Skipped(v.cursor, |v.states|);
    FindFreeExact(v.states, v.cursor, 0);
    AllSkip(v, 0);
    assert v.states[missed].Free?;
  }

  /** Three slots, the cursor at its last value: the scan looks at slots 0, 0 and 1, and slot 2 is FREE. */
  lemma LastCursorMissesFreeSlot(tokens: seq<nat>, sequence: nat, claimed: int)
    requires |tokens| == 3
    ensures var v := Solo([Claimed, Claimed, Free], tokens, SIZE_MAX, sequence, claimed, true);
            v.Valid() && Claim(v).1 == 0 && v.states[2].Free?
  {
    var states := [Claimed, Claimed, Free];
    assert ScanIndex(SIZE_MAX, 0, 3) == 0 && ScanIndex(SIZE_MAX, 1, 3) == 0 && ScanIndex(SIZE_MAX, 2, 3) == 1;
    assert FindFree(states, SIZE_MAX, 3).None?;
    assert FindFree(states, SIZE_MAX, 2).None?;
    assert FindFree(states, SIZE_MAX, 1).None?;
  }

  lemma {:induction false} AllSkip(v: Solo, attempt: nat)
    requires v.Valid() && !CoversRing(v.cursor, |v.states|)
    requires forall i :: 0 <= i < |v.states| && i != Skipped(v.cursor, |v.states|) ==> !v.states[i].Free?
    ensures FindFree(v.states, v.cursor, attempt).None?
    decreases |v.states| - attempt
  {
    if attempt < |v.states| {
      ScanSkips(v.cursor, |v.states|, attempt);
      AllSkip(v, attempt + 1);
    }
  }

  // ------------------------------------------------- claiming in the ring

  /** What claiming reads and writes of the whole ring. */
  function SoloView(s: Ring): Solo {
    Solo(seq(|s.slots|, i requires 0 <= i < |s.slots| => s.slots[i].state),
         seq(|s.slots|, i requires 0 <= i < |s.slots| => s.slots[i].token),
         s.cursor, s.sequence, s.claimed, s.accepts)
  }

  /** `n` steps of one client; what it would choose matters only once it has a handle. */
  function OwnSteps(c: nat, n: nat): seq<Step> {
    if n == 0 then [] else [ClientStep(c, Publish)] + OwnSteps(c, n - 1)
  }

  lemma OwnStep(g: Geometry, s: Ring, c: nat, n: nat, s': Ring)
    requires c < |s.clients| && Runs(g, Next(g, s, ClientStep(c, Publish)), OwnSteps(c, n), s')
    ensures Runs(g, s, OwnSteps(c, n + 1), s')
  {
    hide Next;
    assert OwnSteps(c, n + 1)[1..] == OwnSteps(c, n);
  }

  /** One attempt of the scan: it wins a FREE slot, goes on past another, or gives up at the end. */
  lemma TryOnce(g: Geometry, s: Ring, c: nat, start: nat, attempt: nat)
    requires c < |s.clients| && s.clients[c] == TryCas(start, attempt)
    ensures var s' := Next(g, s, ClientStep(c, Publish));
            if attempt >= |s.slots| then s' == s.(clients := s.clients[c := Outside])
            else
              var i := ScanIndex(start, attempt, |s.slots|);
              if s.slots[i].state.Free? then
                && s'.clients == s.clients[c := Winning(ClearModule, i, s.tickets, 0)]
                && SoloView(s') == SoloView(s).(states := SoloView(s).states[i := Claimed])
              else s' == s.(clients := s.clients[c := TryCas(start, attempt + 1)])
  {
    if attempt < |s.slots| {
      var s', i := Next(g, s, ClientStep(c, Publish)), ScanIndex(start, attempt, |s.slots|);
      if s.slots[i].state.Free? {
        assert SoloView(s').states == SoloView(s).states[i := Claimed];
        assert SoloView(s').tokens == SoloView(s).tokens;
      }
    }
  }

  /** The scan of a client that nothing interrupts: it wins the slot it finds, or gives up. */
  lemma {:induction false} ScanRuns(g: Geometry, s: Ring, c: nat, start: nat, attempt: nat) returns (n: nat, s': Ring)
    requires c < |s.clients| && s.clients[c] == TryCas(start, attempt) && attempt <= |s.slots|
    ensures Runs(g, s, OwnSteps(c, n), s')
    ensures FindFree(SoloView(s).states, start, attempt).None? ==>
      s'.clients == s.clients[c := Outside] && SoloView(s') == SoloView(s)
    ensures FindFree(SoloView(s).states, start, attempt).Some? ==>
      var i := FindFree(SoloView(s).states, start, attempt).value;
      && i < |s.slots| && s'.clients == s.clients[c := Winning(ClearModule, i, s.tickets, 0)]
      && SoloView(s') == SoloView(s).(states := SoloView(s).states[i := Claimed])
    decreases |s.slots| - attempt
  {
    hide Next;
    TryOnce(g, s, c, start, attempt);
    var mid := Next(g, s, ClientStep(c, Publish));
    if attempt < |s.slots| && !s.slots[ScanIndex(start, attempt, |s.slots|)].state.Free? {
      assert SoloView(mid) == SoloView(s);
      n, s' := ScanRuns(g, mid, c, start, attempt + 1);
    } else {
      n, s' := 0, mid;
    }
    OwnStep(g, s, c, n, s');
    n := n + 1;
  }

  /** One operation after a won slot. */
  lemma WinOnce(g: Geometry, s: Ring, c: nat)
    requires c < |s.clients| && s.clients[c].Winning? && s.clients[c].index < |s.slots|
    ensures var s', k := Next(g, s, ClientStep(c, Publish)), s.clients[c];
            && |s'.slots| == |s.slots| && |s'.clients| == |s.clients|
            && match k.step
               case ClearModule => SoloView(s') == SoloView(s) && s'.clients[c] == k.(step := TakeSequence)
               case TakeSequence =>
                 && SoloView(s') == SoloView(s).(sequence := Bump(s.sequence, true))
                 && s'.clients[c] == k.(step := StoreToken,
                                        handle := Handles.HandleOf(Handles.SequenceField(s.sequence), k.index))
               case StoreToken =>
                 && SoloView(s') == SoloView(s).(tokens := SoloView(s).tokens[k.index := k.handle])
                 && s'.clients[c] == k.(step := CountClaim)
               case CountClaim =>
                 && SoloView(s') == SoloView(s).(claimed := s.claimed + 1)
                 && s'.clients[c].With? && s'.clients[c].at.Idle? && s'.clients[c].hold.handle == k.handle
  {
    var s', k := Next(g, s, ClientStep(c, Publish)), s.clients[c];
    assert SoloView(s').states == SoloView(s).states;
    assert SoloView(s').tokens == if k.step.StoreToken? then SoloView(s).tokens[k.index := k.handle]
      else SoloView(s).tokens;
  }

  /** The four operations after a won slot. */
  lemma WinRuns(g: Geometry, s: Ring, c: nat, i: nat, ticket: nat) returns (s': Ring)
    requires c < |s.clients| && i < |s.slots| && s.clients[c] == Winning(ClearModule, i, ticket, 0)
    ensures Runs(g, s, OwnSteps(c, 4), s')
    ensures var h := Handles.HandleOf(Handles.SequenceField(s.sequence), i);
            && |s'.clients| == |s.clients| && s'.clients[c].With? && s'.clients[c].at.Idle?
            && s'.clients[c].hold.handle == h
            && SoloView(s') == SoloView(s).(tokens := SoloView(s).tokens[i := h], sequence := Bump(s.sequence, true),
                                            claimed := s.claimed + 1)
  {
    hide Next, Bump;
    var step := ClientStep(c, Publish);
    WinOnce(g, s, c);
    var s1 := Next(g, s, step);
    WinOnce(g, s1, c);
    var s2 := Next(g, s1, step);
    WinOnce(g, s2, c);
    var s3 := Next(g, s2, step);
    WinOnce(g, s3, c);
    s' := Next(g, s3, step);
    OwnStep(g, s3, c, 0, s');
    OwnStep(g, s2, c, 1, s');
    OwnStep(g, s1, c, 2, s');
    OwnStep(g, s, c, 3, s');
  }

  lemma {:induction false} RunsOn(g: Geometry, s: Ring, c: nat, m: nat, mid: Ring, n: nat, s': Ring)
    requires c < |s.clients| && Runs(g, s, OwnSteps(c, m), mid) && Runs(g, mid, OwnSteps(c, n), s')
    ensures Runs(g, s, OwnSteps(c, m + n), s')
    decreases m
  {
    hide Next;
    if m > 0 {
      var next := Next(g, s, ClientStep(c, Publish));
      assert OwnSteps(c, m)[1..] == OwnSteps(c, m - 1);
      NextKeepsClients(g, s, ClientStep(c, Publish));
      RunsOn(g, next, c, m - 1, mid, n, s');
      OwnStep(g, s, c, m - 1 + n, s');
    }
  }

  lemma NextKeepsClients(g: Geometry, s: Ring, step: Step)
    requires Enabled(s, step)
    ensures |Next(g, s, step).clients| == |s.clients|
  {
  }

  /** The two operations before the cursor: a claim is let in, or refused. */
  lemma ClaimEnters(g: Geometry, s: Ring, c: nat) returns (s': Ring)
    requires c < |s.clients| && s.clients[c].Outside? && |s.slots| > 0
    ensures Runs(g, s, OwnSteps(c, 2), s') && SoloView(s') == SoloView(s)
    ensures s'.clients == s.clients[c := if s.accepts then TakeCursor else Outside] && s'.slots == s.slots
  {
    var s1 := Next(g, s, ClientStep(c, Publish));
    s' := Next(g, s1, ClientStep(c, Publish));
    OwnStep(g, s1, c, 0, s');
    OwnStep(g, s, c, 1, s');
  }

  lemma CursorTaken(g: Geometry, s: Ring, c: nat)
    requires c < |s.clients| && s.clients[c].TakeCursor?
    ensures var s' := Next(g, s, ClientStep(c, Publish));
            && s'.clients == s.clients[c := TryCas(s.cursor, 0)] && s'.slots == s.slots
            && SoloView(s') == SoloView(s).(cursor := Bump(s.cursor, true))
  {
  }

  /**
    A whole claim call in the ring, run without interruption from any state of
    everything else, is the claim function; if its scan covers the ring it ends
    with a handle exactly when claims are accepted and some slot was FREE.
  */
  lemma ClaimAlone(g: Geometry, s: Ring, c: nat) returns (n: nat, s': Ring)
    requires c < |s.clients| && s.clients[c].Outside? && SoloView(s).Valid()
    ensures Runs(g, s, OwnSteps(c, n), s') && |s'.clients| == |s.clients|
    ensures s'.clients[c].Outside? || (s'.clients[c].With? && s'.clients[c].at.Idle?)
    ensures (SoloView(s'), if s'.clients[c].With? then s'.clients[c].hold.handle else 0) == Claim(SoloView(s))
    ensures CoversRing(s.cursor, |s.slots|) ==>
      (s'.clients[c].With? <==> s.accepts && exists i :: 0 <= i < |s.slots| && s.slots[i].state.Free?)
  {
    hide Next, FindFree, Bump;
    var entered := ClaimEnters(g, s, c);
    n, s' := 0, entered;
    if s.accepts {
      n, s' := ScanAlone(g, entered, c);
    }
    RunsOn(g, s, c, 2, entered, n, s');
    n := 2 + n;
    if CoversRing(s.cursor, |s.slots|) {
      ClaimCovers(s);
    }
  }

  /** From taking the cursor to the end of the call. */
  lemma ScanAlone(g: Geometry, s: Ring, c: nat) returns (n: nat, s': Ring)
    requires c < |s.clients| && s.clients[c].TakeCursor? && SoloView(s).Valid() && s.accepts
    ensures Runs(g, s, OwnSteps(c, n), s') && |s'.clients| == |s.clients|
    ensures s'.clients[c].Outside? || (s'.clients[c].With? && s'.clients[c].at.Idle? && s'.clients[c].hold.handle != 0)
    ensures (SoloView(s'), if s'.clients[c].With? then s'.clients[c].hold.handle else 0) == Claim(SoloView(s))
  {
    hide Next, Runs, FindFree, Bump;
    CursorTaken(g, s, c);
    var taken := Next(g, s, ClientStep(c, Publish));
    var found := FindFree(SoloView(s).states, s.cursor, 0);
    n, s' := ScanRuns(g, taken, c, s.cursor, 0);
    if found.Some? {
      var won := s';
      s' := WinRuns(g, won, c, found.value, taken.tickets);
      RunsOn(g, taken, c, n, won, 4, s');
      n := n + 4;
      Handles.HandleDecodes(s.sequence, found.value);
    }
    OwnStep(g, s, c, n, s');
    n := n + 1;
  }

  lemma ClaimCovers(s: Ring)
    requires SoloView(s).Valid() && CoversRing(s.cursor, |s.slots|)
    ensures Claim(SoloView(s)).1 != 0 <==> s.accepts && exists i :: 0 <= i < |s.slots| && s.slots[i].state.Free?
  {
    ClaimFailsOnlyWhenFull(SoloView(s));
    assert forall i :: 0 <= i < |s.slots| ==> SoloView(s).states[i] == s.slots[i].state;
  }

  /** A ring used by one caller at a time: the fields that claiming touches. */
  class SoloRing {
    const states: array<SlotState>
    const tokens: array<nat>
    var cursor: nat
    var sequence: nat
    var claimed: int
    var accepts: bool

    function View(): Solo
      reads this, states, tokens
    {
      Solo(states[..], tokens[..], cursor, sequence, claimed, accepts)
    }

    constructor (capacity: nat)
      requires 0 < capacity <= UINT16_MAX
      ensures fresh(states) && fresh(tokens) && View().Valid()
      ensures View() == Solo(seq(capacity, _ => Free), seq(capacity, _ => 0), 0, 0, 0, true)
    {
      states := new SlotState[capacity](_ => Free);
      tokens := new nat[capacity](_ => 0);
      cursor, sequence, claimed, accepts := 0, 0, 0, true;
    }

    method TryClaim() returns (handle: nat)
      requires View().Valid()
      modifies this`cursor, this`sequence, this`claimed, states, tokens
      ensures (View(), handle) == Claim(old(View())) && View().Valid()
    {
      if !accepts {
        return 0;
      }
      var start := cursor;
      cursor := Bump(cursor, true);
      var attempt := 0;
      while attempt < states.Length && states[ScanIndex(start, attempt, states.Length)] != Free
        invariant 0 <= attempt <= states.Length
        invariant FindFree(states[..], start, 0) == FindFree(states[..], start, attempt)
      {
        attempt := attempt + 1;
      }
      if attempt == states.Length {
        return 0;
      }
      var index := ScanIndex(start, attempt, states.Length);
      assert FindFree(states[..], start, 0) == Some(index);
      handle := Handles.HandleOf(Handles.SequenceField(sequence), index);
      sequence := Bump(sequence, true);
      states[index] := Claimed;
      tokens[index] := handle;
      claimed := claimed + 1;
    }
  }
}
