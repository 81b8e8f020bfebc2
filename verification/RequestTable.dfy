/**
  The request table of a response receiver: an intrusive chained hash table from
  request sequence numbers to live request contexts, relinked in place.

  `mix` stands for the hash mixing function; nothing below depends on which one.
*/
module RequestTable {
  import opened Bits
  import opened Numbers

  const POINTER_SIZE: nat := 8

  class RequestCtx {
    var responseReceiver: Receiver?
    var responseHashNext: RequestCtx?
    var dispatchModuleId: nat
    var dispatchRequestSeq: nat
    var cleanup: bool
    /** Whether a cleanup callback is set. */
    var onRequestCleanup: bool

    /**
      The end of a request: the context leaves the table of its receiver and
      forgets where it came from.  The callback is told the module and the
      request number that the context had, if it had both.
    */
    method CleanupRequest() returns (notified: bool, moduleId: nat, requestSeq: nat)
      requires responseReceiver != null ==> responseReceiver.Valid()
      modifies this
      modifies if responseReceiver == null then {} else {responseReceiver}
      modifies if responseReceiver == null || responseReceiver.requestBuckets == null then {}
        else {responseReceiver.requestBuckets}
      modifies (if responseReceiver == null then {} else responseReceiver.shape.home.Keys)`responseHashNext
      ensures responseReceiver == null && cleanup && !onRequestCleanup && dispatchModuleId == 0 == dispatchRequestSeq
      ensures moduleId == old(dispatchModuleId) && requestSeq == old(dispatchRequestSeq)
      ensures notified <==> old(onRequestCleanup) && moduleId != 0 && requestSeq != 0
      ensures var receiver := old(responseReceiver);
              receiver != null ==>
                && receiver.Valid() && this !in receiver.shape.home
                && receiver.shape.home.Keys == old(receiver.shape.home.Keys) - {this}
                && receiver.table == if this in old(receiver.shape.home) then old(receiver.table) - {requestSeq}
                  else old(receiver.table)
    {
      hide Receiver.Valid;
      moduleId, requestSeq := dispatchModuleId, dispatchRequestSeq;
      var receiver := responseReceiver;
      if receiver != null {
        assert this in receiver.shape.home ==> requestSeq == dispatchRequestSeq;
        receiver.Unregister(this, requestSeq);
      }
      responseReceiver := null;
      cleanup := true;
      notified := onRequestCleanup && moduleId != 0 && requestSeq != 0;
      dispatchModuleId, dispatchRequestSeq := 0, 0;
      onRequestCleanup := false;
    }
  }

  // ------------------------------------------------------- lists and buckets

  /** The list that starts at `head` is exactly `chain`. */
  ghost predicate Linked(head: RequestCtx?, chain: seq<RequestCtx>)
    reads (set n | n in chain)`responseHashNext
  {
    && (|chain| == 0 ==> head == null)
    && (|chain| > 0 ==> head == chain[0] && chain[|chain| - 1].responseHashNext == null)
    && forall i :: 0 <= i < |chain| - 1 ==> chain[i].responseHashNext == chain[i + 1]
  }

  lemma LinkedTail(head: RequestCtx?, chain: seq<RequestCtx>)
    requires Linked(head, chain) && head != null
    ensures |chain| > 0 && head == chain[0] && Linked(head.responseHashNext, chain[1..])
  {
  }

  ghost predicate NoDup<T>(s: seq<T>) {
    forall i, j :: 0 <= i < j < |s| ==> s[i] != s[j]
  }

  function Bucket(mix: nat -> nat, capacity: nat, key: nat): nat
    requires capacity > 0
  {
    And(mix(key), capacity - 1)
  }

  /** The mask step is a remainder, hence an index, for every power-of-two capacity. */
  lemma BucketInRange(mix: nat -> nat, exponent: nat, key: nat)
    ensures Bucket(mix, Pow2(exponent), key) == mix(key) % Pow2(exponent) < Pow2(exponent)
  {
    MaskIsMod(mix(key), exponent);
  }

  type Chains = seq<seq<RequestCtx>>

  /** `home` says in which chain each context is; each is there once, and nowhere else. */
  ghost predicate Holds(home: map<RequestCtx, nat>, chains: Chains) {
    && (forall b, n {:trigger n in chains[b]} {:trigger n in home, chains[b]} :: 0 <= b < |chains| && n in chains[b] ==>
        n in home && home[n] == b)
    && (forall n :: n in home ==> home[n] < |chains| && n in chains[home[n]])
    && (forall b :: 0 <= b < |chains| ==> NoDup(chains[b]))
  }

  /** Two chains share no context. */
  lemma ChainsApart(home: map<RequestCtx, nat>, chains: Chains, i: nat, j: nat)
    requires Holds(home, chains) && i < |chains| && j < |chains| && i != j
    ensures forall n :: n in chains[i] ==> n !in chains[j]
  {
  }

  /** Putting a new context in front of chain `b`. */
  lemma PushHolds(home: map<RequestCtx, nat>, chains: Chains, n: RequestCtx, b: nat)
    requires Holds(home, chains) && n !in home && b < |chains|
    ensures Holds(home[n := b], chains[b := [n] + chains[b]])
  {
    var after := chains[b := [n] + chains[b]];
    forall c, m | 0 <= c < |after| && m in after[c]
      ensures m in home[n := b] && home[n := b][m] == c
    {
      assert m == n || m in chains[c];
    }
  }

  /** Taking one context out of its chain. */
  lemma DropHolds(home: map<RequestCtx, nat>, chains: Chains, b: nat, i: nat)
    requires Holds(home, chains) && b < |chains| && i < |chains[b]|
    ensures Holds(home - {chains[b][i]}, chains[b := Without(chains[b], i)])
  {
    var n := chains[b][i];
    WithoutDrops(chains[b], i);
    assert n in chains[b];
    var after := chains[b := Without(chains[b], i)];
    forall c, m | 0 <= c < |after| && m in after[c]
      ensures m in home && m != n && c == home[m]
    {
      assert m in chains[c];
    }
  }

  function Without<T>(s: seq<T>, i: nat): seq<T>
    requires i < |s|
  {
    s[..i] + s[i + 1..]
  }

  lemma WithoutDrops<T>(s: seq<T>, i: nat)
    requires i < |s| && NoDup(s)
    ensures NoDup(Without(s, i))
    ensures forall m :: m in Without(s, i) <==> m in s && m != s[i]
  {
    var rest := Without(s, i);
    forall m ensures m in rest <==> m in s && m != s[i] {
      if m in s && m != s[i] {
        var j :| 0 <= j < |s| && s[j] == m;
        assert rest[if j < i then j else j - 1] == m;
      }
    }
  }

  /** Every bucket from `from` on starts the list that spells its chain. */
  ghost predicate AllLinked(buckets: array<RequestCtx?>, chains: Chains, from: nat, home: map<RequestCtx, nat>)
    requires Holds(home, chains)
    reads buckets, home.Keys`responseHashNext
  {
    && buckets.Length == |chains|
    && forall b :: from <= b < |chains| ==> Linked(buckets[b], chains[b])
  }

  // ------------------------------------------------------------ relinking

  /** Links `ctx` in front of bucket `b`: the two assignments that resize and register share. */
  method LinkFront(buckets: array<RequestCtx?>, b: nat, ctx: RequestCtx, ghost chains: Chains,
                   ghost home: map<RequestCtx, nat>)
    requires Holds(home, chains) && AllLinked(buckets, chains, 0, home) && b < |chains| && ctx !in home
    modifies buckets, ctx`responseHashNext
    ensures Holds(home[ctx := b], chains[b := [ctx] + chains[b]])
    ensures AllLinked(buckets, chains[b := [ctx] + chains[b]], 0, home[ctx := b])
  {
    PushHolds(home, chains, ctx, b);
    ctx.responseHashNext := buckets[b];
    buckets[b] := ctx;
  }

  /** Walks the list at `head` to the first context with the given request number. */
  method Walk(head: RequestCtx?, requestSeq: nat, ghost chain: seq<RequestCtx>) returns (found: RequestCtx?)
    requires Linked(head, chain)
    ensures found != null ==> found in chain && found.dispatchRequestSeq == requestSeq
    ensures found == null ==> forall n :: n in chain ==> n.dispatchRequestSeq != requestSeq
  {
    ghost var rest := chain;
    found := head;
    while found != null && found.dispatchRequestSeq != requestSeq
      invariant Linked(found, rest) && forall n :: n in rest ==> n in chain
      invariant forall n :: n in chain && n !in rest ==> n.dispatchRequestSeq != requestSeq
      decreases |rest|
    {
      LinkedTail(found, rest);
      found := found.responseHashNext;
      rest := rest[1..];
    }
  }

  /** Relinks the list at `head` into the new buckets, one context at a time. */
  method MoveChain(mix: nat -> nat, buckets: array<RequestCtx?>, head: RequestCtx?, ghost exponent: nat,
                   ghost chain: seq<RequestCtx>, ghost chains: Chains, ghost home: map<RequestCtx, nat>)
    returns (ghost chains': Chains, ghost home': map<RequestCtx, nat>)
    requires buckets.Length == Pow2(exponent)
    requires Holds(home, chains) && AllLinked(buckets, chains, 0, home)
    requires Linked(head, chain) && NoDup(chain) && forall n :: n in chain ==> n !in home
    modifies buckets, (set n | n in chain)`responseHashNext
    ensures Holds(home', chains') && AllLinked(buckets, chains', 0, home')
    ensures forall n :: n in home' <==> n in home || n in chain
    ensures forall n :: n in home ==> home'[n] == home[n]
    ensures forall n :: n in chain ==> home'[n] == Bucket(mix, buckets.Length, n.dispatchRequestSeq)
  {
    chains', home' := chains, home;
    ghost var rest := chain;
    var ctx := head;
    while ctx != null
      invariant Linked(ctx, rest) && NoDup(rest)
      invariant forall n :: n in rest ==> n in chain && n !in home'
      invariant Holds(home', chains') && AllLinked(buckets, chains', 0, home')
      invariant forall n :: n in home' <==> n in home || (n in chain && n !in rest)
      invariant forall n :: n in home ==> home'[n] == home[n]
      invariant forall n :: n in chain && n !in rest ==> home'[n] == Bucket(mix, buckets.Length, n.dispatchRequestSeq)
      decreases |rest|
    {
      LinkedTail(ctx, rest);
      var next := ctx.responseHashNext;
      var bucket := Bucket(mix, buckets.Length, ctx.dispatchRequestSeq);
      BucketInRange(mix, exponent, ctx.dispatchRequestSeq);
      LinkFront(buckets, bucket, ctx, chains', home');
      chains', home' := chains'[bucket := [ctx] + chains'[bucket]], home'[ctx := bucket];
      rest := rest[1..];
      ctx := next;
    }
  }

  /** One round of the outer loop of resize; the later chains of `source` stay as they are. */
  method RehashOne(mix: nat -> nat, source: array<RequestCtx?>, buckets: array<RequestCtx?>, index: nat,
                   ghost target: nat, ghost chains: Chains, ghost home: map<RequestCtx, nat>, ghost movedChains: Chains,
                   ghost moved: map<RequestCtx, nat>)
    returns (ghost chains': Chains, ghost home': map<RequestCtx, nat>)
    requires source != buckets && buckets.Length == Pow2(target)
    requires Holds(home, chains) && index < |chains| && AllLinked(source, chains, index, home)
    requires Holds(moved, movedChains) && AllLinked(buckets, movedChains, 0, moved)
    requires forall n :: n in chains[index] ==> n !in moved
    modifies buckets, (set n | n in chains[index])`responseHashNext
    ensures AllLinked(source, chains, index + 1, home)
    ensures Holds(home', chains') && AllLinked(buckets, chains', 0, home')
    ensures forall n :: n in home' <==> n in moved || n in chains[index]
    ensures forall n :: n in moved ==> home'[n] == moved[n]
    ensures forall n :: n in chains[index] ==> home'[n] == Bucket(mix, buckets.Length, n.dispatchRequestSeq)
  {
    assert Linked(source[index], chains[index]);
    chains', home' := MoveChain(mix, buckets, source[index], target, chains[index], movedChains, moved);
    forall j | index < j < |chains| ensures Linked(source[j], chains[j]) {
      ChainsApart(home, chains, j, index);
      assert old(Linked(source[j], chains[j]));
    }
  }

  lemma EmptyLists(buckets: array<RequestCtx?>, chains: Chains)
    requires |chains| == buckets.Length && forall b :: 0 <= b < buckets.Length ==> buckets[b] == null && chains[b] == []
    ensures Holds(map[], chains) && AllLinked(buckets, chains, 0, map[])
  {
  }

  lemma ChainsCover(home: map<RequestCtx, nat>, chains: Chains)
    requires Holds(home, chains)
    ensures forall n :: n in home ==> home[n] < |chains|
    ensures forall b :: 0 <= b < |chains| ==> forall n :: n in chains[b] <==> n in home && home[n] == b
  {
  }

  /** The relinking loops of resize: every list of `source` moves into `buckets`. */
  method Rehash(mix: nat -> nat, source: array<RequestCtx?>, buckets: array<RequestCtx?>, ghost target: nat,
                ghost chains: Chains, ghost home: map<RequestCtx, nat>)
    returns (ghost chains': Chains, ghost home': map<RequestCtx, nat>)
    requires source != buckets && buckets.Length == Pow2(target)
    requires Holds(home, chains) && AllLinked(source, chains, 0, home)
    requires forall i :: 0 <= i < buckets.Length ==> buckets[i] == null
    modifies buckets, home.Keys`responseHashNext
    ensures Holds(home', chains') && AllLinked(buckets, chains', 0, home')
    ensures home'.Keys == home.Keys
    ensures forall n :: n in home' ==> home'[n] == Bucket(mix, buckets.Length, n.dispatchRequestSeq)
  {
    hide Holds, Linked, NoDup;
    chains', home' := seq(buckets.Length, _ => []), map[];
    EmptyLists(buckets, chains');
    ChainsCover(home, chains);
    var index := 0;
    while index < source.Length
      invariant 0 <= index <= source.Length == |chains|
      invariant Holds(home', chains') && AllLinked(buckets, chains', 0, home')
      invariant forall n :: n in home' <==> n in home && home[n] < index
      invariant forall n :: n in home' ==> home'[n] == Bucket(mix, buckets.Length, n.dispatchRequestSeq)
      invariant AllLinked(source, chains, index, home)
    {
      chains', home' := RehashOne(mix, source, buckets, index, target, chains, home, chains', home');
      index := index + 1;
    }
  }

  /** Takes `ctx` out of the list of bucket `b`, if it is there. */
  method Unlink(buckets: array<RequestCtx?>, b: nat, ctx: RequestCtx, ghost chains: Chains,
                ghost home: map<RequestCtx, nat>)
    returns (removed: bool, ghost chains': Chains)
    requires Holds(home, chains) && AllLinked(buckets, chains, 0, home) && b < |chains|
    modifies buckets, home.Keys`responseHashNext
    ensures removed <==> ctx in chains[b]
    ensures !removed ==> chains' == chains && AllLinked(buckets, chains, 0, home)
    ensures removed ==>
      && Holds(home - {ctx}, chains') && |chains'| == |chains|
      && AllLinked(buckets, chains', 0, home - {ctx})
  {
    ghost var chain := chains[b];
    assert Linked(buckets[b], chain);
    var prev: RequestCtx?, entry := null, buckets[b];
    ghost var i := 0;
    while entry != null && entry != ctx
      invariant 0 <= i <= |chain|
      invariant entry == if i < |chain| then chain[i] else null
      invariant prev == if i == 0 then null else chain[i - 1]
      invariant forall j :: 0 <= j < i ==> chain[j] != ctx
      decreases |chain| - i
    {
      prev, entry := entry, entry.responseHashNext;
      i := i + 1;
    }
    if entry == null {
      return false, chains;
    }
    DropHolds(home, chains, b, i);
    chains' := chains[b := Without(chain, i)];
    UnlinkAt(buckets, b, prev, ctx, i, chains, home);
    return true, chains';
  }

  /** The assignments of one removal, as far as the list of bucket `b` sees them. */
  method SkipOver(buckets: array<RequestCtx?>, b: nat, prev: RequestCtx?, ctx: RequestCtx, ghost i: nat,
                  ghost chain: seq<RequestCtx>)
    requires b < buckets.Length && Linked(buckets[b], chain) && NoDup(chain)
    requires i < |chain| && chain[i] == ctx && prev == if i == 0 then null else chain[i - 1]
    modifies buckets, (set n | n in chain)`responseHashNext
    ensures Linked(buckets[b], Without(chain, i))
    ensures forall c :: 0 <= c < buckets.Length && c != b ==> buckets[c] == old(buckets[c])
  {
    if prev == null {
      buckets[b] := ctx.responseHashNext;
    } else {
      prev.responseHashNext := ctx.responseHashNext;
    }
    ctx.responseHashNext := null;
  }

  /** Removing one context leaves every other list as it was. */
  method UnlinkAt(buckets: array<RequestCtx?>, b: nat, prev: RequestCtx?, ctx: RequestCtx, ghost i: nat,
                  ghost chains: Chains, ghost home: map<RequestCtx, nat>)
    requires Holds(home, chains) && AllLinked(buckets, chains, 0, home) && b < |chains|
    requires i < |chains[b]| && chains[b][i] == ctx && prev == if i == 0 then null else chains[b][i - 1]
    requires Holds(home - {ctx}, chains[b := Without(chains[b], i)])
    modifies buckets, home.Keys`responseHashNext
    ensures AllLinked(buckets, chains[b := Without(chains[b], i)], 0, home - {ctx})
  {
    hide NoDup, Linked, Without;
    assert Linked(buckets[b], chains[b]);
    assert ctx in chains[b];
    SkipOver(buckets, b, prev, ctx, i, chains[b]);
    forall c | 0 <= c < |chains| && c != b ensures Linked(buckets[c], chains[c]) {
      ChainsApart(home, chains, c, b);
      assert old(Linked(buckets[c], chains[c]));
    }
  }

  /** Which chain each linked context is in, the chains, and the exponent of the capacity. */
  datatype Shape = Shape(home: map<RequestCtx, nat>, chains: Chains, exponent: nat)

  /** Every context is in the bucket of its key. */
  ghost predicate Hashed(mix: nat -> nat, capacity: nat, home: map<RequestCtx, nat>, keyOf: map<RequestCtx, nat>)
    requires capacity > 0
  {
    keyOf.Keys == home.Keys && forall n :: n in home ==> home[n] == Bucket(mix, capacity, keyOf[n])
  }

  /** The contexts with their keys are exactly the entries of `table`, and 0 is not a key. */
  ghost predicate Spells(keyOf: map<RequestCtx, nat>, table: map<nat, RequestCtx>) {
    && (forall n :: n in keyOf ==> keyOf[n] in table && table[keyOf[n]] == n)
    && (forall k :: k in table ==> k != 0 && table[k] in keyOf && keyOf[table[k]] == k)
  }

  /** The buckets start the lists that `shape` describes. */
  ghost predicate Lists(buckets: array<RequestCtx?>, shape: Shape)
    reads buckets, shape.home.Keys`responseHashNext
  {
    && buckets.Length == Pow2(shape.exponent) == |shape.chains| && shape.exponent > 1
    && Holds(shape.home, shape.chains) && AllLinked(buckets, shape.chains, 0, shape.home)
  }

  /** The new bucket array of resize, with every context relinked into it. */
  method Rebuild(mix: nat -> nat, source: array<RequestCtx?>, capacity: nat, ghost target: nat, ghost shape: Shape,
                 ghost keyOf: map<RequestCtx, nat>)
    returns (buckets: array<RequestCtx?>, ghost shape': Shape)
    requires Lists(source, shape) && capacity == Pow2(target) && target > 1
    requires keyOf.Keys == shape.home.Keys && forall n :: n in keyOf ==> n.dispatchRequestSeq == keyOf[n]
    modifies shape.home.Keys`responseHashNext
    ensures fresh(buckets) && buckets.Length == capacity == Pow2(shape'.exponent) && shape'.exponent > 1
    ensures shape'.home.Keys == shape.home.Keys
    ensures Lists(buckets, shape') && Hashed(mix, capacity, shape'.home, keyOf)
  {
    hide Holds, Linked;
    buckets := new RequestCtx?[capacity](_ => null);
    ghost var chains, home := Rehash(mix, source, buckets, target, shape.chains, shape.home);
    shape' := Shape(home, chains, target);
  }

  lemma HashedPush(mix: nat -> nat, capacity: nat, home: map<RequestCtx, nat>, keyOf: map<RequestCtx, nat>,
                   ctx: RequestCtx, key: nat)
    requires capacity > 0 && Hashed(mix, capacity, home, keyOf)
    ensures Hashed(mix, capacity, home[ctx := Bucket(mix, capacity, key)], keyOf[ctx := key])
  {
  }

  ghost function Pushed(shape: Shape, ctx: RequestCtx, bucket: nat): Shape {
    if bucket < |shape.chains| then
      shape.(home := shape.home[ctx := bucket], chains := shape.chains[bucket := [ctx] + shape.chains[bucket]])
    else shape
  }

  /** Links `ctx` under `key` in front of its bucket. */
  method PushFront(mix: nat -> nat, buckets: array<RequestCtx?>, ctx: RequestCtx, key: nat, ghost shape: Shape,
                   ghost keyOf: map<RequestCtx, nat>)
    requires buckets.Length > 0 && Lists(buckets, shape) && Hashed(mix, buckets.Length, shape.home, keyOf)
    requires ctx !in shape.home
    modifies buckets, ctx`responseHashNext
    ensures var shape' := Pushed(shape, ctx, Bucket(mix, buckets.Length, key));
            && Lists(buckets, shape') && Hashed(mix, buckets.Length, shape'.home, keyOf[ctx := key])
            && shape'.exponent == shape.exponent && shape'.home.Keys == shape.home.Keys + {ctx}
  {
    hide Hashed, Holds, AllLinked, Linked;
    BucketInRange(mix, shape.exponent, key);
    var bucket := Bucket(mix, buckets.Length, key);
    HashedPush(mix, buckets.Length, shape.home, keyOf, ctx, key);
    LinkFront(buckets, bucket, ctx, shape.chains, shape.home);
  }

  /** Takes `ctx` out of the bucket of `key`, the key it is linked under if it is linked at all. */
  method Detach(mix: nat -> nat, buckets: array<RequestCtx?>, ctx: RequestCtx, key: nat, ghost shape: Shape,
                ghost keyOf: map<RequestCtx, nat>)
    returns (removed: bool, ghost shape': Shape)
    requires buckets.Length > 0 && Lists(buckets, shape) && Hashed(mix, buckets.Length, shape.home, keyOf)
    requires ctx in keyOf ==> keyOf[ctx] == key
    modifies buckets, shape.home.Keys`responseHashNext
    ensures removed <==> ctx in shape.home
    ensures Lists(buckets, shape') && Hashed(mix, buckets.Length, shape'.home, keyOf - {ctx})
    ensures shape'.exponent == shape.exponent && shape'.home.Keys == shape.home.Keys - {ctx}
  {
    hide AllLinked, Linked;
    var bucket := Bucket(mix, buckets.Length, key);
    BucketInRange(mix, shape.exponent, key);
    ghost var chains;
    removed, chains := Unlink(buckets, bucket, ctx, shape.chains, shape.home);
    shape' := if removed then shape.(home := shape.home - {ctx}, chains := chains) else shape;
  }

  /** The number of requests in the table. */
  ghost function Entries(table: map<nat, RequestCtx>): nat {
    |table|
  }

  lemma EntriesInsert(table: map<nat, RequestCtx>, key: nat, ctx: RequestCtx)
    requires key !in table
    ensures Entries(table[key := ctx]) == Entries(table) + 1
  {
  }

  lemma SpellsInsert(keyOf: map<RequestCtx, nat>, table: map<nat, RequestCtx>, ctx: RequestCtx, key: nat)
    requires Spells(keyOf, table) && ctx !in keyOf && key !in table && key != 0
    ensures Spells(keyOf[ctx := key], table[key := ctx])
  {
  }

  lemma EntriesDrop(table: map<nat, RequestCtx>, key: nat)
    requires key in table
    ensures Entries(table - {key}) + 1 == Entries(table)
  {
    EntriesInsert(table - {key}, key, table[key]);
    assert (table - {key})[key := table[key]] == table;
  }

  lemma SpellsDrop(keyOf: map<RequestCtx, nat>, table: map<nat, RequestCtx>, ctx: RequestCtx)
    requires Spells(keyOf, table) && ctx in keyOf
    ensures keyOf[ctx] in table && Spells(keyOf - {ctx}, table - {keyOf[ctx]})
  {
  }

  lemma NoZeroKey(keyOf: map<RequestCtx, nat>, table: map<nat, RequestCtx>, ctx: RequestCtx)
    requires Spells(keyOf, table)
    ensures ctx in keyOf ==> keyOf[ctx] != 0
  {
  }

  class Receiver {
    const mix: nat -> nat
    var acceptsResponses: bool
    var requestBuckets: array?<RequestCtx?>
    var requestCapacity: nat
    var requestSize: nat

    /** What the table means: the live contexts by request sequence number. */
    ghost var table: map<nat, RequestCtx>
    /** How the contexts are linked. */
    ghost var shape: Shape

    /**
      The linked lists spell `table`.  `keyOf` is the key a context was linked
      under: its own field, except for a context whose install is not finished.
    */
    ghost predicate Structure(keyOf: map<RequestCtx, nat>)
      reads this, requestBuckets, shape.home.Keys`responseHashNext
    {
      && requestBuckets != null && requestBuckets.Length == requestCapacity == Pow2(shape.exponent)
      && shape.exponent > 1
      && Lists(requestBuckets, shape) && keyOf.Keys == shape.home.Keys
      && Hashed(mix, requestCapacity, shape.home, keyOf) && Spells(keyOf, table)
      && requestSize == Entries(table)
      && requestSize <= requestCapacity - requestCapacity / 4
    }

    ghost function Keys(): map<RequestCtx, nat>
      reads this, shape.home.Keys`dispatchRequestSeq
    {
      map n | n in shape.home :: n.dispatchRequestSeq
    }

    /** A live context points back at its receiver. */
    ghost predicate Attached()
      reads this, shape.home.Keys`responseReceiver, shape.home.Keys`dispatchModuleId
    {
      forall n :: n in shape.home ==> n.responseReceiver == this && n.dispatchModuleId != 0
    }

    ghost predicate Valid()
      reads this, requestBuckets, shape.home.Keys
    {
      if requestBuckets == null then table == map[] && shape.home == map[] && requestSize == 0
      else Structure(Keys()) && Attached()
    }

    /** A receiver for responses; its table starts with 256 buckets. */
    constructor Response(mix: nat -> nat)
      ensures Valid() && table == map[] && acceptsResponses && requestCapacity == 256
    {
      this.mix := mix;
      acceptsResponses := true;
      requestBuckets := new RequestCtx?[256](_ => null);
      requestCapacity, requestSize := 256, 0;
      table, shape := map[], Shape(map[], seq(256, _ => []), 8);
      new;
      assert Pow2(8) == 256;
    }

    /** A receiver for wake-ups only: no table. */
    constructor Wakeup(mix: nat -> nat)
      ensures Valid() && table == map[] && requestBuckets == null && !acceptsResponses
    {
      this.mix := mix;
      acceptsResponses := false;
      requestBuckets := null;
      requestCapacity, requestSize := 0, 0;
      table, shape := map[], Shape(map[], [], 0);
    }

    /** In the bucket of `key`, the only context linked under that key is the table's. */
    lemma ChainHasKey(keyOf: map<RequestCtx, nat>, key: nat)
      requires Structure(keyOf)
      ensures var b := Bucket(mix, requestCapacity, key);
              && b < |shape.chains| && b < requestBuckets.Length
              && Linked(requestBuckets[b], shape.chains[b])
              && (key in table ==> table[key] in shape.chains[b])
              && (forall n :: n in shape.chains[b] ==>
                  n in shape.home && (keyOf[n] == key <==> key in table && n == table[key]))
    {
      BucketInRange(mix, shape.exponent, key);
    }

    /** Lookup by request sequence number. */
    method Find(requestSeq: nat) returns (found: RequestCtx?)
      requires Valid()
      ensures found == if requestSeq in table then table[requestSeq] else null
    {
      if requestBuckets == null || requestSeq == 0 {
        return null;
      }
      var bucket := Bucket(mix, requestCapacity, requestSeq);
      ChainHasKey(Keys(), requestSeq);
      found := Walk(requestBuckets[bucket], requestSeq, shape.chains[bucket]);
    }

    /**
      Moves every context into a bucket array of another size, a power of two that
      the entries fit; allocation may fail.
    */
    method Resize(capacity: nat, allocationSucceeds: bool, ghost target: nat, ghost keyOf: map<RequestCtx, nat>)
      returns (ok: bool)
      requires Structure(keyOf)
      requires capacity > 0 ==> capacity == Pow2(target) && target > 1 && requestSize <= capacity - capacity / 4
      requires keyOf.Keys == shape.home.Keys && forall n :: n in keyOf ==> n.dispatchRequestSeq == keyOf[n]
      modifies this, shape.home.Keys`responseHashNext
      ensures ok <==> 0 < capacity <= SIZE_MAX / POINTER_SIZE && allocationSucceeds
      ensures Structure(keyOf)
      ensures table == old(table) && shape.home.Keys == old(shape.home.Keys)
              && acceptsResponses == old(acceptsResponses)
      ensures requestSize == old(requestSize)
      ensures requestCapacity == if ok then capacity else old(requestCapacity)
      ensures requestBuckets == old(requestBuckets) || fresh(requestBuckets)
    {
      hide Lists, Hashed, Spells, Entries;
      if capacity == 0 || capacity > SIZE_MAX / POINTER_SIZE || !allocationSucceeds {
        return false;
      }
      ghost var shape';
      requestBuckets, shape' := Rebuild(mix, requestBuckets, capacity, target, shape, keyOf);
      requestCapacity, shape := capacity, shape';
      return true;
    }

    /** Puts a context in front of its bucket; its own request field is set later. */
    method Insert(ctx: RequestCtx, requestSeq: nat, ghost keyOf: map<RequestCtx, nat>)
      requires Structure(keyOf) && requestSize + 1 <= requestCapacity - requestCapacity / 4
      requires requestCapacity > 0 && keyOf.Keys == shape.home.Keys
      requires ctx !in shape.home && requestSeq != 0 && requestSeq !in table
      modifies this, requestBuckets, ctx`responseHashNext
      ensures Structure(keyOf[ctx := requestSeq])
      ensures table == old(table)[requestSeq := ctx]
      ensures requestBuckets == old(requestBuckets) && acceptsResponses == old(acceptsResponses)
    {
      hide Lists, Hashed, Spells, Entries;
      SpellsInsert(keyOf, table, ctx, requestSeq);
      EntriesInsert(table, requestSeq, ctx);
      ghost var before := shape;
      shape := Pushed(shape, ctx, Bucket(mix, requestCapacity, requestSeq));
      table := table[requestSeq := ctx];
      PushFront(mix, requestBuckets, ctx, requestSeq, before, keyOf);
      requestSize := requestSize + 1;
    }

    /**
      Links a context under a new request number.  The context's own fields are
      not set yet: the table's invariant holds again only at the end of `Install`.
    */
    method Register(ctx: RequestCtx, requestSeq: nat, allocationSucceeds: bool) returns (ok: bool)
      requires Valid() && requestBuckets != null && requestSeq != 0 && ctx !in shape.home
      modifies this, requestBuckets, shape.home.Keys`responseHashNext, ctx`responseHashNext
      ensures ok <==>
        && requestSeq !in old(table)
        && CanHoldMore(old(requestCapacity), old(requestSize), allocationSucceeds)
      ensures Structure(if ok then old(Keys())[ctx := requestSeq] else old(Keys()))
      ensures table == if ok then old(table)[requestSeq := ctx] else old(table)
      ensures acceptsResponses == old(acceptsResponses)
    {
      hide Lists, Hashed, Spells, Entries;
      var found := Find(requestSeq);
      if found != null {
        return false;
      }
      ghost var keyOf := Keys();
      CapacityGrows(shape.exponent);
      if requestSize + 1 > requestCapacity - requestCapacity / 4 {
        if requestCapacity > SIZE_MAX / 2 {
          return false;
        }
        var grown := Resize(requestCapacity * 2, allocationSucceeds, shape.exponent + 1, keyOf);
        if !grown {
          return false;
        }
      }
      Insert(ctx, requestSeq, keyOf);
      return true;
    }

    /** Routes later responses for `requestSeq` to `ctx`. */
    method Install(ctx: RequestCtx?, moduleId: nat, requestSeq: nat, allocationSucceeds: bool) returns (ok: bool)
      requires Valid() && (ctx != null ==> ctx !in shape.home)
      modifies this, requestBuckets, shape.home.Keys`responseHashNext, ctx
      ensures Valid()
      ensures ok <==>
        && ctx != null && old(acceptsResponses) && old(requestBuckets) != null && moduleId != 0 && requestSeq != 0
        && requestSeq !in old(table) && CanHoldMore(old(requestCapacity), old(requestSize), allocationSucceeds)
      ensures table == if ok then old(table)[requestSeq := ctx] else old(table)
      ensures ok ==>
        && ctx.responseReceiver == this && ctx.dispatchModuleId == moduleId
        && ctx.dispatchRequestSeq == requestSeq
      ensures acceptsResponses == old(acceptsResponses)
    {
      hide Lists, Hashed, Spells, Entries;
      if ctx == null || !acceptsResponses || requestBuckets == null || moduleId == 0 || requestSeq == 0 {
        return false;
      }
      ghost var keyOf := Keys();
      ok := Register(ctx, requestSeq, allocationSucceeds);
      if !ok {
        assert Keys() == keyOf;
        return;
      }
      SetDispatch(ctx, moduleId, requestSeq, keyOf);
    }

    /** The last step of an install: the context's own fields catch up with the key it is linked under. */
    method SetDispatch(ctx: RequestCtx, moduleId: nat, requestSeq: nat, ghost keyOf: map<RequestCtx, nat>)
      requires requestBuckets != null && moduleId != 0
      requires Structure(keyOf[ctx := requestSeq])
      requires forall n :: n in shape.home && n != ctx ==>
        n in keyOf && n.dispatchRequestSeq == keyOf[n] && n.responseReceiver == this && n.dispatchModuleId != 0
      modifies ctx
      ensures Valid()
      ensures ctx.responseReceiver == this && ctx.dispatchModuleId == moduleId && ctx.dispatchRequestSeq == requestSeq
    {
      hide Lists, Hashed, Spells, Entries;
      ctx.responseReceiver := this;
      ctx.dispatchModuleId := moduleId;
      ctx.dispatchRequestSeq := requestSeq;
      assert Keys() == keyOf[ctx := requestSeq];
    }

    /** Takes a context out of the table; `requestSeq` is the number it was installed under. */
    method Unregister(ctx: RequestCtx, requestSeq: nat)
      requires Valid() && (ctx in shape.home ==> requestSeq == ctx.dispatchRequestSeq)
      modifies this, requestBuckets, shape.home.Keys`responseHashNext
      ensures Valid() && ctx !in shape.home
      ensures table == if ctx in old(shape.home) then old(table) - {requestSeq} else old(table)
      ensures shape.home.Keys == old(shape.home.Keys) - {ctx}
      ensures acceptsResponses == old(acceptsResponses) && requestBuckets == old(requestBuckets)
    {
      hide Lists, Hashed, Spells, Entries;
      ghost var keyOf := Keys();
      if requestBuckets == null {
        return;
      }
      if requestSeq == 0 {
        NoZeroKey(keyOf, table, ctx);
        return;
      }
      Remove(ctx, requestSeq, keyOf);
      assert Keys() == keyOf - {ctx};
    }

    /** Takes a context out of its bucket, if it is in the table. */
    method Remove(ctx: RequestCtx, requestSeq: nat, ghost keyOf: map<RequestCtx, nat>)
      requires Structure(keyOf) && (ctx in keyOf ==> requestSeq == keyOf[ctx])
      requires requestBuckets != null && requestBuckets.Length > 0 && keyOf.Keys == shape.home.Keys
      modifies this, requestBuckets, shape.home.Keys`responseHashNext
      ensures Structure(keyOf - {ctx})
      ensures table == if ctx in keyOf then old(table) - {requestSeq} else old(table)
      ensures requestBuckets == old(requestBuckets) && acceptsResponses == old(acceptsResponses)
    {
      hide Lists, Hashed, Spells, Entries;
      var removed;
      ghost var after;
      removed, after := Detach(mix, requestBuckets, ctx, requestSeq, shape, keyOf);
      if removed {
        SpellsDrop(keyOf, table, ctx);
        EntriesDrop(table, requestSeq);
        requestSize := requestSize - 1;
        table := table - {requestSeq};
      } else {
        assert keyOf - {ctx} == keyOf;
      }
      shape := after;
    }

    /** The live context that a response for this module and request goes to, if there is one. */
    method ResponseRequest(moduleId: nat, requestSeq: nat) returns (ctx: RequestCtx?)
      requires Valid()
      ensures ctx == if requestSeq in table && !table[requestSeq].cleanup
              && table[requestSeq].dispatchModuleId == moduleId
                     then table[requestSeq] else null
    {
      ctx := Find(requestSeq);
      if ctx == null || ctx.cleanup || ctx.responseReceiver != this
         || ctx.dispatchModuleId != moduleId || ctx.dispatchRequestSeq != requestSeq {
        return null;
      }
    }
  }

  /** Doubling a power-of-two capacity above two makes room for one more. */
  lemma CapacityGrows(exponent: nat)
    requires exponent > 1
    ensures var c := Pow2(exponent); c >= 4 && c - c / 4 + 1 <= 2 * c - 2 * c / 4
  {
    Pow2Grows(2, exponent);
    assert Pow2(2) == 4;
  }

  /** Registering one more request succeeds: there is room, or the bucket array can be doubled. */
  predicate CanHoldMore(capacity: nat, size: nat, allocationSucceeds: bool) {
    || size + 1 <= capacity - capacity / 4
    || (capacity <= SIZE_MAX / 2 && capacity * 2 <= SIZE_MAX / POINTER_SIZE && allocationSucceeds)
  }
}
