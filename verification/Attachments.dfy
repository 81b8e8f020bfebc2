/**
  The worker attachments of a pooled HTTP/3 transport: an array of entries keyed
  by (node, thread), grown by doubling and closed up in place when one leaves.
*/
module Attachments {
  import opened Wrappers

  /** The worker context; `accepting` says whether its acceptor is set. */
  class Http3Ctx {
    const nodeId: nat
    const threadId: nat
    const forwardFd: int
    var accepting: bool

    constructor (nodeId: nat, threadId: nat, forwardFd: int)
      ensures this.nodeId == nodeId && this.threadId == threadId && this.forwardFd == forwardFd && !accepting
    {
      this.nodeId, this.threadId, this.forwardFd := nodeId, threadId, forwardFd;
      accepting := false;
    }

    /** Stops one worker; a transport stays valid, and every other worker accepts as before. */
    method StopAccepting(ghost transport: Transport)
      requires transport.Valid()
      modifies this`accepting
      ensures transport.Valid() && transport.Contents() == old(transport.Contents())
      ensures forall c :: c in Contexts(transport.Contents()) ==> (c.accepting <==> old(c.accepting) && c != this)
    {
      accepting := false;
    }
  }

  datatype Attachment = Attachment(nodeId: nat, threadId: nat, forwardFd: int, ctx: Http3Ctx?)

  // ------------------------------------------------- what the array means

  predicate Keyed(a: Attachment, nodeId: nat, threadId: nat) {
    a.nodeId == nodeId && a.threadId == threadId
  }

  predicate UniqueKeys(s: seq<Attachment>) {
    forall i, j :: 0 <= i < j < |s| ==> !Keyed(s[i], s[j].nodeId, s[j].threadId)
  }

  /** Where the entry of (node, thread) is, or the length when there is none. */
  function Find(s: seq<Attachment>, nodeId: nat, threadId: nat): (i: nat)
    ensures i <= |s| && (i < |s| ==> Keyed(s[i], nodeId, threadId))
    ensures forall j :: 0 <= j < i ==> !Keyed(s[j], nodeId, threadId)
  {
    if s == [] then 0
    else if Keyed(s[0], nodeId, threadId) then 0
    else
      var i := Find(s[1..], nodeId, threadId);
      assert forall j :: 0 < j < i + 1 ==> s[j] == s[1..][j - 1];
      i + 1
  }

  function Registered(s: seq<Attachment>, a: Attachment): seq<Attachment> {
    var i := Find(s, a.nodeId, a.threadId);
    if i < |s| then s[i := a] else s + [a]
  }

  function Unregistered(s: seq<Attachment>, nodeId: nat, threadId: nat, forwardFd: int): seq<Attachment> {
    var i := Find(s, nodeId, threadId);
    if i < |s| && s[i].forwardFd == forwardFd then s[..i] + s[i + 1..] else s
  }

  /** The first usable descriptor of a node. */
  function FirstOfNode(s: seq<Attachment>, nodeId: nat): int {
    if s == [] then -1
    else if s[0].nodeId == nodeId && s[0].forwardFd != -1 then s[0].forwardFd
    else FirstOfNode(s[1..], nodeId)
  }

  /** The array as a map from (node, thread) to what is attached there. */
  function Lookup(s: seq<Attachment>, nodeId: nat, threadId: nat): Option<Attachment> {
    var i := Find(s, nodeId, threadId);
    if i < |s| then Some(s[i]) else None
  }

  lemma LookupIs(s: seq<Attachment>, i: nat)
    requires UniqueKeys(s) && i < |s|
    ensures Lookup(s, s[i].nodeId, s[i].threadId) == Some(s[i])
  {
  }

  /** Registering keeps the keys unique and changes what is found under one key only. */
  lemma RegisterUpdates(s: seq<Attachment>, a: Attachment)
    requires UniqueKeys(s)
    ensures UniqueKeys(Registered(s, a))
    ensures forall n, t :: Lookup(Registered(s, a), n, t) == if Keyed(a, n, t) then Some(a) else Lookup(s, n, t)
  {
    var r := Registered(s, a);
    var at := Find(s, a.nodeId, a.threadId);
    forall n, t ensures Lookup(r, n, t) == if Keyed(a, n, t) then Some(a) else Lookup(s, n, t) {
      if Keyed(a, n, t) {
        LookupIs(r, at);
      } else if Find(s, n, t) < |s| {
        LookupIs(r, Find(s, n, t));
      }
    }
  }

  lemma GoneAfter(s: seq<Attachment>, nodeId: nat, threadId: nat, forwardFd: int)
    requires UniqueKeys(s) && Unregistered(s, nodeId, threadId, forwardFd) != s
    ensures var r := Unregistered(s, nodeId, threadId, forwardFd); Find(r, nodeId, threadId) == |r|
  {
    var r, at := Unregistered(s, nodeId, threadId, forwardFd), Find(s, nodeId, threadId);
    forall j | 0 <= j < |r| ensures !Keyed(r[j], nodeId, threadId) {
      assert r[j] == s[if j < at then j else j + 1];
    }
  }

  lemma UnregisterKeepsKeys(s: seq<Attachment>, nodeId: nat, threadId: nat, forwardFd: int)
    requires UniqueKeys(s)
    ensures UniqueKeys(Unregistered(s, nodeId, threadId, forwardFd))
  {
    var r, at := Unregistered(s, nodeId, threadId, forwardFd), Find(s, nodeId, threadId);
    if r != s {
      assert forall j :: 0 <= j < |r| ==> r[j] == s[if j < at then j else j + 1];
    }
  }

  lemma OtherKeysStay(s: seq<Attachment>, nodeId: nat, threadId: nat, forwardFd: int, n: nat, t: nat)
    requires UniqueKeys(s) && !(n == nodeId && t == threadId)
    ensures Lookup(Unregistered(s, nodeId, threadId, forwardFd), n, t) == Lookup(s, n, t)
  {
    hide UniqueKeys;
    var r, at := Unregistered(s, nodeId, threadId, forwardFd), Find(s, nodeId, threadId);
    UnregisterKeepsKeys(s, nodeId, threadId, forwardFd);
    if r != s {
      assert forall j :: 0 <= j < |r| ==> r[j] == s[if j < at then j else j + 1];
      var i := Find(s, n, t);
      if i < |s| {
        LookupIs(r, if i < at then i else i - 1);
      }
    }
  }

  /** Unregistering removes exactly the entry of that key, and only with its descriptor. */
  lemma UnregisterRemoves(s: seq<Attachment>, nodeId: nat, threadId: nat, forwardFd: int)
    requires UniqueKeys(s)
    ensures var r := Unregistered(s, nodeId, threadId, forwardFd);
            && UniqueKeys(r)
            && (forall n, t :: Lookup(r, n, t) ==
                  if n == nodeId && t == threadId && Lookup(s, n, t).Some?
                    && Lookup(s, n, t).value.forwardFd == forwardFd
                  then None else Lookup(s, n, t))
  {
    hide UniqueKeys;
    var r := Unregistered(s, nodeId, threadId, forwardFd);
    UnregisterKeepsKeys(s, nodeId, threadId, forwardFd);
    if r != s {
      assert Find(r, nodeId, threadId) == |r| by {
        GoneAfter(s, nodeId, threadId, forwardFd);
      }
      forall n, t | !(n == nodeId && t == threadId) ensures Lookup(r, n, t) == Lookup(s, n, t) {
        OtherKeysStay(s, nodeId, threadId, forwardFd, n, t);
      }
    }
  }

  /** The fallback is the entry of the node that comes first, among those with a descriptor. */
  lemma {:induction false} FirstOfNodeIsFirst(s: seq<Attachment>, nodeId: nat, i: nat)
    requires i < |s| && s[i].nodeId == nodeId && s[i].forwardFd != -1
    requires forall j :: 0 <= j < i && s[j].nodeId == nodeId ==> s[j].forwardFd == -1
    ensures FirstOfNode(s, nodeId) == s[i].forwardFd
  {
    if i > 0 {
      FirstOfNodeIsFirst(s[1..], nodeId, i - 1);
    }
  }

  lemma {:induction false} FirstOfNodeAbsent(s: seq<Attachment>, nodeId: nat)
    requires forall j :: 0 <= j < |s| && s[j].nodeId == nodeId ==> s[j].forwardFd == -1
    ensures FirstOfNode(s, nodeId) == -1
  {
    if s != [] {
      FirstOfNodeAbsent(s[1..], nodeId);
    }
  }

  lemma {:induction false} FirstOfNodeAppend(s: seq<Attachment>, a: Attachment, nodeId: nat)
    ensures FirstOfNode(s + [a], nodeId) ==
            if FirstOfNode(s, nodeId) != -1 then FirstOfNode(s, nodeId)
            else if a.nodeId == nodeId then a.forwardFd else -1
  {
    if s == [] {
      assert s + [a] == [a];
    } else {
      FirstOfNodeAppend(s[1..], a, nodeId);
      assert (s + [a])[1..] == s[1..] + [a];
    }
  }

  /** The descriptor for (node, thread): the exact entry's, or with a fallback another of the node. */
  function ForwardFd(s: seq<Attachment>, nodeId: nat, threadId: nat, allowThreadFallback: bool): int {
    var i := Find(s, nodeId, threadId);
    if i < |s| && s[i].forwardFd != -1 then s[i].forwardFd
    else if allowThreadFallback then FirstOfNode(s[..i], nodeId)
    else -1
  }

  /** No entry of the node comes before entry `i`, which is one. */
  predicate IsFirstOfNode(s: seq<Attachment>, i: nat) {
    i < |s| && forall j :: 0 <= j < i ==> s[j].nodeId != s[i].nodeId
  }

  /** Descriptors are open sockets: never -1, and different for different entries. */
  predicate Descriptors(s: seq<Attachment>) {
    && (forall i :: 0 <= i < |s| ==> s[i].forwardFd != -1)
    && (forall i, j :: 0 <= i < j < |s| ==> s[i].forwardFd != s[j].forwardFd)
  }

  /** Entry `i` is the first of its node that can be reached. */
  predicate IsFirstReachable(s: seq<Attachment>, i: nat) {
    && i < |s| && s[i].forwardFd != -1
    && forall j :: 0 <= j < i && s[j].nodeId == s[i].nodeId ==> s[j].forwardFd == -1
  }

  /**
    Whatever the descriptors are: the exact entry's if it has one, or else, with
    a fallback, that of the first entry of the node that has one and comes before.
  */
  lemma ForwardFdFindsReachable(s: seq<Attachment>, nodeId: nat, threadId: nat, allowThreadFallback: bool)
    ensures var fd, at := ForwardFd(s, nodeId, threadId, allowThreadFallback), Find(s, nodeId, threadId);
            && (at < |s| && s[at].forwardFd != -1 ==> fd == s[at].forwardFd)
            && (at < |s| && s[at].forwardFd == -1 && !allowThreadFallback ==> fd == -1)
            && (fd != -1 && !(at < |s| && s[at].forwardFd != -1) ==>
                  && allowThreadFallback
                  && exists i :: 0 <= i < at && IsFirstReachable(s, i) && s[i].nodeId == nodeId && s[i].forwardFd == fd)
            && (allowThreadFallback && fd == -1 ==>
                  forall i :: 0 <= i < at && s[i].nodeId == nodeId ==> s[i].forwardFd == -1)
  {
    var at := Find(s, nodeId, threadId);
    FirstReachable(s[..at], nodeId);
    if FirstOfNode(s[..at], nodeId) != -1 {
      var i :| 0 <= i < at && s[..at][i].nodeId == nodeId && s[..at][i].forwardFd == FirstOfNode(s[..at], nodeId)
               && forall j :: 0 <= j < i && s[..at][j].nodeId == nodeId ==> s[..at][j].forwardFd == -1;
      assert forall j :: 0 <= j < at ==> s[..at][j] == s[j];
      assert IsFirstReachable(s, i);
    }
  }

  lemma {:induction false} FirstReachable(s: seq<Attachment>, nodeId: nat)
    ensures var fd := FirstOfNode(s, nodeId);
            if fd == -1 then forall i :: 0 <= i < |s| && s[i].nodeId == nodeId ==> s[i].forwardFd == -1
            else exists i :: 0 <= i < |s| && s[i].nodeId == nodeId && s[i].forwardFd == fd
                             && forall j :: 0 <= j < i && s[j].nodeId == nodeId ==> s[j].forwardFd == -1
  {
    if s != [] && !(s[0].nodeId == nodeId && s[0].forwardFd != -1) {
      FirstReachable(s[1..], nodeId);
      assert forall i :: 0 < i < |s| ==> s[i] == s[1..][i - 1];
      if FirstOfNode(s, nodeId) != -1 {
        var i :| 0 <= i < |s[1..]| && s[1..][i].nodeId == nodeId && s[1..][i].forwardFd == FirstOfNode(s, nodeId)
                 && forall j :: 0 <= j < i && s[1..][j].nodeId == nodeId ==> s[1..][j].forwardFd == -1;
        assert s[i + 1].nodeId == nodeId;
      }
    }
  }

  /** The exact entry, or else the first of the node when any worker of it will do. */
  lemma ForwardFdRoutes(s: seq<Attachment>, nodeId: nat, threadId: nat, allowThreadFallback: bool)
    requires Descriptors(s)
    ensures var fd := ForwardFd(s, nodeId, threadId, allowThreadFallback);
            var exact := Lookup(s, nodeId, threadId);
            && (exact.Some? ==> fd == exact.value.forwardFd)
            && (exact.None? && !allowThreadFallback ==> fd == -1)
            && (exact.None? && allowThreadFallback ==>
                  && (forall i :: 0 <= i < |s| && IsFirstOfNode(s, i) && s[i].nodeId == nodeId ==> fd == s[i].forwardFd)
                  && ((forall a :: a in s ==> a.nodeId != nodeId) ==> fd == -1))
  {
    if Lookup(s, nodeId, threadId).None? {
      assert s[..|s|] == s;
      forall i | 0 <= i < |s| && IsFirstOfNode(s, i) && s[i].nodeId == nodeId
        ensures FirstOfNode(s, nodeId) == s[i].forwardFd
      {
        FirstOfNodeIsFirst(s, nodeId, i);
      }
      if forall a :: a in s ==> a.nodeId != nodeId {
        FirstOfNodeAbsent(s, nodeId);
      }
    }
  }

  /**
    Where a worker forwards packets to: `own` is its attachment, `nodeId` the
    node in the connection ID, or none for an unknown Initial.
  */
  function ForwardTarget(s: seq<Attachment>, activeNodeId: nat, own: Attachment, accepting: bool, nodeId: Option<nat>,
                         threadId: nat): int {
    match nodeId
    case Some(n) =>
      if Keyed(own, n, threadId) then -1 else ForwardFd(s, n, threadId, false)
    case None =>
      if activeNodeId == 0 || Keyed(own, activeNodeId, threadId) || accepting then -1
      else ForwardFd(s, activeNodeId, threadId, true)
  }

  /** A packet that a connection ID routes is never forwarded to the worker that has it. */
  lemma RoutedPacketsLeave(s: seq<Attachment>, activeNodeId: nat, i: nat, accepting: bool, nodeId: nat, threadId: nat)
    requires UniqueKeys(s) && Descriptors(s) && i < |s|
    ensures ForwardTarget(s, activeNodeId, s[i], accepting, Some(nodeId), threadId) != s[i].forwardFd
  {
    var at := Find(s, nodeId, threadId);
    assert at < |s| && at != i ==> s[at].forwardFd != s[i].forwardFd;
  }

  /**
    An unknown Initial goes to a worker of the active generation.  It comes back
    to its own worker in exactly one situation: that worker is the first of the
    active generation, does not accept, and no worker has the packet's thread.
  */
  lemma InitialsReachActive(s: seq<Attachment>, activeNodeId: nat, i: nat, accepting: bool, threadId: nat)
    requires UniqueKeys(s) && Descriptors(s) && i < |s|
    ensures var fd := ForwardTarget(s, activeNodeId, s[i], accepting, None, threadId);
            && (fd != -1 ==> exists j :: 0 <= j < |s| && s[j].nodeId == activeNodeId && s[j].forwardFd == fd)
            && (fd == s[i].forwardFd <==>
                  && !accepting && activeNodeId == s[i].nodeId != 0
                  && Lookup(s, activeNodeId, threadId).None? && IsFirstOfNode(s, i))
  {
    ForwardFdRoutes(s, activeNodeId, threadId, true);
    var at := Find(s, activeNodeId, threadId);
    if at < |s| {
      assert at != i ==> s[at].forwardFd != s[i].forwardFd;
    } else if exists a :: a in s && a.nodeId == activeNodeId {
      var j := FirstIndex(s, activeNodeId);
      assert IsFirstOfNode(s, j);
      assert j != i ==> s[j].forwardFd != s[i].forwardFd;
    }
  }

  /**
    Two workers of the active generation, the first not accepting: an Initial
    for a third thread comes back to the first.
  */
  lemma InitialComesBack()
    ensures var s := [Attachment(1, 0, 10, null), Attachment(1, 1, 11, null)];
            && UniqueKeys(s) && Descriptors(s)
            && ForwardTarget(s, 1, s[0], false, None, 2) == 10 == s[0].forwardFd
  {
    var s := [Attachment(1, 0, 10, null), Attachment(1, 1, 11, null)];
    assert s[1..] == [s[1]] && s[1..][1..] == [];
    assert Find(s, 1, 2) == 2 && s[..2] == s;
    FirstOfNodeIsFirst(s, 1, 0);
  }

  /** The index of the first entry of a node. */
  lemma {:induction false} FirstIndex(s: seq<Attachment>, nodeId: nat) returns (i: nat)
    requires exists a :: a in s && a.nodeId == nodeId
    ensures IsFirstOfNode(s, i) && s[i].nodeId == nodeId
  {
    if s[0].nodeId == nodeId {
      i := 0;
    } else {
      assert forall a :: a in s && a != s[0] ==> a in s[1..];
      i := FirstIndex(s[1..], nodeId);
      assert forall j :: 0 < j <= i + 1 ==> s[j] == s[1..][j - 1];
      i := i + 1;
    }
  }

  ghost function Contexts(s: seq<Attachment>): set<Http3Ctx> {
    set a | a in s && a.ctx != null :: a.ctx
  }

  predicate Describes(a: Attachment, ctx: Http3Ctx) {
    a.nodeId == ctx.nodeId && a.threadId == ctx.threadId && a.forwardFd == ctx.forwardFd
  }

  predicate Described(s: seq<Attachment>) {
    forall a :: a in s && a.ctx != null ==> Describes(a, a.ctx)
  }

  ghost predicate OnlyActiveAccepts(s: seq<Attachment>, activeNodeId: nat)
    reads Contexts(s)
  {
    forall c :: c in Contexts(s) && c.accepting ==> c.nodeId == activeNodeId
  }

  /** A descriptor that an entry under this key may have: open, and not another entry's. */
  predicate Unused(s: seq<Attachment>, nodeId: nat, threadId: nat, forwardFd: int) {
    forwardFd != -1 && forall a :: a in s && !Keyed(a, nodeId, threadId) ==> a.forwardFd != forwardFd
  }

  lemma RegisterKeepsDescriptors(s: seq<Attachment>, a: Attachment)
    requires UniqueKeys(s) && Descriptors(s) && Unused(s, a.nodeId, a.threadId, a.forwardFd)
    ensures Descriptors(Registered(s, a))
  {
    var r, at := Registered(s, a), Find(s, a.nodeId, a.threadId);
    forall i | 0 <= i < |s| && i != at ensures s[i].forwardFd != a.forwardFd {
      assert s[i] in s;
      assert !Keyed(s[i], a.nodeId, a.threadId);
    }
  }

  lemma UnregisterKeepsDescriptors(s: seq<Attachment>, nodeId: nat, threadId: nat, forwardFd: int)
    requires Descriptors(s)
    ensures Descriptors(Unregistered(s, nodeId, threadId, forwardFd))
  {
    var r, at := Unregistered(s, nodeId, threadId, forwardFd), Find(s, nodeId, threadId);
    if r != s {
      assert forall j :: 0 <= j < |r| ==> r[j] == s[if j < at then j else j + 1];
    }
  }

  lemma RegisterKeepsValid(s: seq<Attachment>, a: Attachment, activeNodeId: nat)
    requires UniqueKeys(s) && Described(s) && OnlyActiveAccepts(s, activeNodeId)
    requires a.ctx != null ==> Describes(a, a.ctx) && !a.ctx.accepting
    ensures var r := Registered(s, a); UniqueKeys(r) && Described(r) && OnlyActiveAccepts(r, activeNodeId)
  {
    var r := Registered(s, a);
    RegisterUpdates(s, a);
    assert forall b :: b in r ==> b in s || b == a;
  }

  lemma UnregisterKeepsValid(s: seq<Attachment>, nodeId: nat, threadId: nat, forwardFd: int, activeNodeId: nat)
    requires UniqueKeys(s) && Described(s) && OnlyActiveAccepts(s, activeNodeId)
    ensures var r := Unregistered(s, nodeId, threadId, forwardFd);
            UniqueKeys(r) && Described(r) && OnlyActiveAccepts(r, activeNodeId)
  {
    var r := Unregistered(s, nodeId, threadId, forwardFd);
    UnregisterRemoves(s, nodeId, threadId, forwardFd);
    assert forall b :: b in r ==> b in s;
  }

  /** In a table with unique keys the first entry of the key is the only one that can match. */
  lemma OnlyMatch(s: seq<Attachment>, i: nat)
    requires UniqueKeys(s) && i < |s|
    ensures Find(s, s[i].nodeId, s[i].threadId) == i
  {
  }

  class Transport {
    var attachments: array?<Attachment>
    var numAttachments: nat
    var attachmentsCapacity: nat
    var activeNodeId: nat

    ghost predicate Shaped()
      reads this
    {
      && attachmentsCapacity == (if attachments == null then 0 else attachments.Length)
      && numAttachments <= attachmentsCapacity
    }

    ghost function Contents(): seq<Attachment>
      reads this, attachments
      requires Shaped()
    {
      if attachments == null then [] else attachments[..numAttachments]
    }

    /**
      At most one entry a key; entries describe their contexts, with descriptors
      of their own; only the active generation accepts.
    */
    ghost predicate Valid()
      reads this, attachments, if Shaped() then Contexts(Contents()) else {}
    {
      && Shaped() && UniqueKeys(Contents()) && Described(Contents()) && Descriptors(Contents())
      && OnlyActiveAccepts(Contents(), activeNodeId)
    }

    constructor ()
      ensures Valid() && Contents() == [] && activeNodeId == 0
    {
      attachments := null;
      numAttachments, attachmentsCapacity, activeNodeId := 0, 0, 0;
    }

    /** Replaces the entry of the same key or appends one; growing the array may fail. */
    method Register(nodeId: nat, threadId: nat, forwardFd: int, ctx: Http3Ctx?, allocationSucceeds: bool)
      returns (ok: bool)
      requires Valid()
      requires Unused(Contents(), nodeId, threadId, forwardFd)
      requires ctx != null ==> Describes(Attachment(nodeId, threadId, forwardFd, ctx), ctx) && !ctx.accepting
      modifies this, attachments
      ensures Valid() && activeNodeId == old(activeNodeId)
      ensures ok <==> allocationSucceeds || old(numAttachments) < old(attachmentsCapacity)
                      || Find(old(Contents()), nodeId, threadId) < old(numAttachments)
      ensures Contents() == if ok then Registered(old(Contents()), Attachment(nodeId, threadId, forwardFd, ctx))
              else old(Contents())
    {
      hide UniqueKeys, Described, Descriptors;
      ghost var before := Contents();
      var slot := 0;
      while slot < numAttachments && !(attachments[slot].nodeId == nodeId && attachments[slot].threadId == threadId)
        invariant slot <= numAttachments
        invariant forall j :: 0 <= j < slot ==> !Keyed(before[j], nodeId, threadId)
      {
        slot := slot + 1;
      }
      var a := Attachment(nodeId, threadId, forwardFd, ctx);
      RegisterKeepsDescriptors(before, a);
      RegisterKeepsValid(before, a, activeNodeId);
      ok := Put(slot, a, allocationSucceeds);
    }

    /** Writes one entry, into an existing slot or behind the last. */
    method Put(slot: nat, a: Attachment, allocationSucceeds: bool) returns (ok: bool)
      requires Shaped() && slot <= numAttachments
      modifies this, attachments
      ensures Shaped() && activeNodeId == old(activeNodeId)
      ensures ok <==> allocationSucceeds || slot < old(numAttachments) || old(numAttachments) < old(attachmentsCapacity)
      ensures Contents() == if !ok then old(Contents())
                            else if slot < old(numAttachments) then old(Contents())[slot := a]
                            else old(Contents()) + [a]
    {
      if slot == numAttachments {
        if numAttachments == attachmentsCapacity {
          if !allocationSucceeds {
            return false;
          }
          Grow(a);
        }
        numAttachments := numAttachments + 1;
      }
      attachments[slot] := a;
      return true;
    }

    /** Doubles the capacity, from 8, keeping the entries; the new slots hold anything. */
    method Grow(anything: Attachment)
      requires Shaped() && numAttachments == attachmentsCapacity
      modifies this
      ensures Shaped() && Contents() == old(Contents()) && attachments != null && fresh(attachments)
      ensures numAttachments == old(numAttachments) && activeNodeId == old(activeNodeId)
      ensures attachmentsCapacity == if old(attachmentsCapacity) == 0 then 8 else 2 * old(attachmentsCapacity)
    {
      var newCapacity := if attachmentsCapacity == 0 then 8 else attachmentsCapacity * 2;
      var grown := new Attachment[newCapacity](_ => anything);
      forall i | 0 <= i < numAttachments {
        grown[i] := attachments[i];
      }
      assert attachments != null ==> grown[..numAttachments] == attachments[..numAttachments];
      attachments, attachmentsCapacity := grown, newCapacity;
    }

    /** The descriptor that packets for (node, thread) are forwarded to, or -1. */
    method GetForwardFd(nodeId: nat, threadId: nat, allowThreadFallback: bool) returns (fd: int)
      requires Valid()
      ensures fd == ForwardFd(Contents(), nodeId, threadId, allowThreadFallback)
    {
      ghost var s := Contents();
      fd := -1;
      var fallbackFd := -1;
      var i := 0;
      while i < numAttachments
        invariant i <= numAttachments && fd == -1
        invariant forall j :: 0 <= j < i ==> !Keyed(s[j], nodeId, threadId)
        invariant fallbackFd == if allowThreadFallback then FirstOfNode(s[..i], nodeId) else -1
      {
        assert s[..i + 1] == s[..i] + [s[i]];
        FirstOfNodeAppend(s[..i], s[i], nodeId);
        if attachments[i].nodeId == nodeId {
          if allowThreadFallback && fallbackFd == -1 {
            fallbackFd := attachments[i].forwardFd;
          }
          if attachments[i].threadId == threadId {
            fd := attachments[i].forwardFd;
            assert Find(s, nodeId, threadId) == i;
            break;
          }
        }
        i := i + 1;
      }
      if fd == -1 {
        fd := fallbackFd;
      }
    }

    /** Removes the entry with this key and descriptor, closing the gap in place. */
    method Unregister(nodeId: nat, threadId: nat, forwardFd: int)
      requires Valid()
      modifies this`numAttachments, attachments
      ensures Valid() && activeNodeId == old(activeNodeId)
      ensures Contents() == Unregistered(old(Contents()), nodeId, threadId, forwardFd)
    {
      hide UniqueKeys, Described, Descriptors, Unregistered;
      ghost var before := Contents();
      var i := 0;
      while i < numAttachments
        invariant i <= numAttachments == old(numAttachments) && Contents() == before
        invariant forall j :: 0 <= j < i ==> !Keyed(before[j], nodeId, threadId) || before[j].forwardFd != forwardFd
      {
        if Keyed(attachments[i], nodeId, threadId) && attachments[i].forwardFd == forwardFd {
          Unregistering(before, i, activeNodeId);
          CloseGap(i);
          return;
        }
        i := i + 1;
      }
      NotRegistered(before, nodeId, threadId, forwardFd);
    }

    /** Moves the entries behind slot `i` down by one. */
    method CloseGap(i: nat)
      requires Shaped() && i < numAttachments
      modifies this`numAttachments, attachments
      ensures Shaped() && Contents() == old(Contents())[..i] + old(Contents())[i + 1..]
    {
      forall j | i <= j < numAttachments - 1 {
        attachments[j] := attachments[j + 1];
      }
      numAttachments := numAttachments - 1;
    }

    /** A new worker joins, not accepting until its generation is activated. */
    method Attach(nodeId: nat, threadId: nat, forwardFd: int, allocationSucceeds: bool) returns (ctx: Http3Ctx?)
      requires Valid() && Unused(Contents(), nodeId, threadId, forwardFd)
      modifies this, attachments
      ensures Valid() && activeNodeId == old(activeNodeId)
      ensures ctx != null ==>
        && fresh(ctx) && Describes(Attachment(nodeId, threadId, forwardFd, ctx), ctx) && !ctx.accepting
        && Contents() == Registered(old(Contents()), Attachment(nodeId, threadId, forwardFd, ctx))
      ensures ctx == null ==> Contents() == old(Contents())
      ensures allocationSucceeds ==> ctx != null
    {
      ctx := new Http3Ctx(nodeId, threadId, forwardFd);
      var ok := Register(nodeId, threadId, forwardFd, ctx, allocationSucceeds);
      if !ok {
        ctx := null;
      }
    }

    /** Makes one generation the active one: exactly its attached contexts accept. */
    method Activate(nodeId: nat)
      requires Valid()
      modifies this`activeNodeId, Contexts(Contents())`accepting
      ensures Valid() && activeNodeId == nodeId && Contents() == old(Contents())
      ensures forall c :: c in Contexts(Contents()) ==> (c.accepting <==> c.nodeId == nodeId)
    {
      hide UniqueKeys, Descriptors;
      ghost var s := Contents();
      activeNodeId := nodeId;
      var i := 0;
      while i < numAttachments
        invariant i <= numAttachments
        invariant forall j :: 0 <= j < i && attachments[j].ctx != null ==>
          (attachments[j].ctx.accepting <==> attachments[j].nodeId == nodeId)
        invariant Contents() == s && activeNodeId == nodeId
      {
        var attachment := attachments[i];
        assert attachment in s;
        if attachment.ctx != null {
          attachment.ctx.accepting := attachment.nodeId == nodeId;
        }
        i := i + 1;
      }
      forall c | c in Contexts(s) ensures c.accepting <==> c.nodeId == nodeId {
        var a :| a in s && a.ctx == c;
        assert Describes(a, c);
      }
    }

    /**
      A worker leaves.  Descriptors of live workers differ, so it takes its own
      entry with it and no other, also when its entry was replaced meanwhile.
    */
    method Detach(ctx: Http3Ctx)
      requires Valid()
      requires forall a :: a in Contents() && a.ctx != ctx ==> a.forwardFd != ctx.forwardFd
      modifies this`numAttachments, attachments
      ensures Valid() && activeNodeId == old(activeNodeId)
      ensures forall a :: a in Contents() <==> a in old(Contents()) && a.ctx != ctx
    {
      ghost var before := Contents();
      if ctx.forwardFd != -1 {
        Unregister(ctx.nodeId, ctx.threadId, ctx.forwardFd);
        DetachedEntries(before, ctx);
      } else {
        assert forall a :: a in before ==> a.forwardFd != -1;
      }
    }
  }

  /** Taking out entry i is unregistering its key and descriptor, and keeps what the transport keeps. */
  lemma Unregistering(s: seq<Attachment>, i: nat, activeNodeId: nat)
    requires i < |s| && UniqueKeys(s) && Described(s) && Descriptors(s) && OnlyActiveAccepts(s, activeNodeId)
    ensures var r := s[..i] + s[i + 1..];
            && r == Unregistered(s, s[i].nodeId, s[i].threadId, s[i].forwardFd)
            && UniqueKeys(r) && Described(r) && Descriptors(r) && OnlyActiveAccepts(r, activeNodeId)
  {
    hide UniqueKeys, Described, Descriptors, OnlyActiveAccepts;
    OnlyMatch(s, i);
    UnregisterKeepsDescriptors(s, s[i].nodeId, s[i].threadId, s[i].forwardFd);
    UnregisterKeepsValid(s, s[i].nodeId, s[i].threadId, s[i].forwardFd, activeNodeId);
  }

  lemma NotRegistered(s: seq<Attachment>, nodeId: nat, threadId: nat, forwardFd: int)
    requires forall j :: 0 <= j < |s| ==> !Keyed(s[j], nodeId, threadId) || s[j].forwardFd != forwardFd
    ensures Unregistered(s, nodeId, threadId, forwardFd) == s
  {
  }

  lemma DetachedEntries(s: seq<Attachment>, ctx: Http3Ctx)
    requires UniqueKeys(s)
    requires Described(s)
    requires forall a :: a in s && a.ctx != ctx ==> a.forwardFd != ctx.forwardFd
    ensures forall a :: a in Unregistered(s, ctx.nodeId, ctx.threadId, ctx.forwardFd) <==> a in s && a.ctx != ctx
  {
    var i := Find(s, ctx.nodeId, ctx.threadId);
    if i < |s| && s[i].forwardFd == ctx.forwardFd {
      OthersRemain(s, i);
      assert s[i] in s;
    }
  }

  /** Taking out entry i takes it out and nothing else. */
  lemma OthersRemain(s: seq<Attachment>, i: nat)
    requires i < |s| && UniqueKeys(s)
    ensures forall a :: a in s[..i] + s[i + 1..] <==> a in s && a != s[i]
  {
    assert s == s[..i] + [s[i]] + s[i + 1..];
  }
}
