/**
  Memory layout of the response ring and the checks that guard a slot's payload.

  Sizes and addresses are 64-bit words.  Every function that the shim computes
  in machine arithmetic returns a `Word`, so the verifier shows that no
  intermediate value wraps; the lemmas compare the result with the same
  question asked in unbounded arithmetic.
*/
module SlotLayout {
  import opened Wrappers
  import opened Bits
  import opened Numbers

  const UINT16_MAX: nat := 0xFFFF
  const MAX_HEADERS: nat := 64

  type Word = x: int | 0 <= x <= SIZE_MAX

  // ---------------------------------------------------------------- stride

  /** The size checks of receiver creation; `base` is the size of a slot without its payload. */
  function ComputeStride(ringCapacity: Word, payloadCapacity: Word, base: Word, alignment: Word): (stride: Option<Word>)
    requires alignment > 0 && base > 0
  {
    if ringCapacity == 0 || ringCapacity > UINT16_MAX || payloadCapacity == 0 then None
    else if payloadCapacity > SIZE_MAX - base then None
    else
      var unpadded: Word := base + payloadCapacity;
      var remainder: Word := unpadded % alignment;
      if remainder != 0 && unpadded > SIZE_MAX - (alignment - remainder) then None
      else
        var padded: Word := if remainder == 0 then unpadded else unpadded + (alignment - remainder);
        if ringCapacity > SIZE_MAX / padded then None else Some(padded)
  }

  /** The least multiple of `alignment` that is not below `size`, in unbounded arithmetic. */
  ghost predicate IsAlignedUp(size: nat, alignment: nat, up: nat)
    requires alignment > 0
  {
    && up % alignment == 0
    && size <= up < size + alignment
  }

  /**
    Creation accepts a ring exactly when its parameters are in range and the
    whole aligned allocation fits a word; the accepted stride is the aligned
    slot size.
  */
  lemma StrideExact(ringCapacity: Word, payloadCapacity: Word, base: Word, alignment: Word, up: nat)
    requires alignment > 0 && base > 0
    requires IsAlignedUp(base + payloadCapacity, alignment, up)
    ensures ComputeStride(ringCapacity, payloadCapacity, base, alignment)
         == if 0 < ringCapacity <= UINT16_MAX && payloadCapacity > 0 && ringCapacity * up <= SIZE_MAX
            then Some(up) else None
  {
    var size := base + payloadCapacity;
    AlignedUpIsPadding(size, alignment, up);
    if ringCapacity > 0 {
      ProductFits(ringCapacity, up);
      assert ringCapacity * up >= up by { GrowsByFactor(ringCapacity, up); }
    }
  }

  lemma AlignedUpIsPadding(size: nat, alignment: nat, up: nat)
    requires alignment > 0 && IsAlignedUp(size, alignment, up)
    ensures up == if size % alignment == 0 then size else size + (alignment - size % alignment)
  {
    var pad := up - size;
    assert 0 <= pad < alignment;
    var q, r := size / alignment, size % alignment;
    assert up == alignment * q + (r + pad);
    if r + pad >= alignment {
      assert up == alignment * (q + 1) + (r + pad - alignment);
      RemainderUnique(up, alignment, q + 1, r + pad - alignment);
    } else {
      RemainderUnique(up, alignment, q, r + pad);
    }
  }

  lemma GrowsByFactor(a: nat, b: nat)
    requires a > 0
    ensures a * b >= b
  {
  }

  /** The division test used instead of a product never disagrees with the product. */
  lemma ProductFits(count: nat, size: nat)
    requires size > 0
    ensures count <= SIZE_MAX / size <==> count * size <= SIZE_MAX
  {
    var q, r := SIZE_MAX / size, SIZE_MAX % size;
    assert SIZE_MAX == size * q + r;
    if count <= q {
      Monotone(size, count, q);
    } else {
      Monotone(size, q + 1, count);
    }
  }

  // -------------------------------------------------------------- geometry

  /**
    A created ring: `storage` is the address of the allocation, `dataOffset`
    and `dataSize` place the slot data inside a slot; the payload follows it.
  */
  datatype Geometry = Geometry(
    storage: nat, stride: nat, capacity: nat, payloadCapacity: nat, dataOffset: nat, dataSize: nat)
  {
    ghost predicate Valid() {
      && storage > 0 && 0 < capacity <= UINT16_MAX
      && dataOffset + dataSize + payloadCapacity <= stride
      && storage + capacity * stride <= SIZE_MAX
    }

    function SlotStart(index: nat): nat {
      storage + index * stride
    }

    function PayloadStart(index: nat): nat {
      SlotStart(index) + dataOffset + dataSize
    }
  }

  /** A created ring is valid wherever the allocator places it. */
  lemma CreatedGeometryValid(ringCapacity: Word, payloadCapacity: Word, dataOffset: nat, dataSize: nat, alignment: Word,
                             storage: nat)
    requires alignment > 0 && 0 < dataOffset + dataSize <= SIZE_MAX
    requires ComputeStride(ringCapacity, payloadCapacity, dataOffset + dataSize, alignment).Some?
    requires var stride := ComputeStride(ringCapacity, payloadCapacity, dataOffset + dataSize, alignment).value;
             storage > 0 && storage + ringCapacity * stride <= SIZE_MAX
    ensures var stride := ComputeStride(ringCapacity, payloadCapacity, dataOffset + dataSize, alignment).value;
            && stride % alignment == 0
            && Geometry(storage, stride, ringCapacity, payloadCapacity, dataOffset, dataSize).Valid()
  {
    var size := dataOffset + dataSize + payloadCapacity;
    var stride := ComputeStride(ringCapacity, payloadCapacity, dataOffset + dataSize, alignment).value;
    var q, r := size / alignment, size % alignment;
    if r == 0 {
      assert stride == size;
    } else {
      assert stride == alignment * (q + 1) + 0;
      RemainderUnique(stride, alignment, q + 1, 0);
    }
  }

  lemma SlotsApart(stride: nat, i: nat, j: nat)
    requires i < j
    ensures 0 <= i * stride && i * stride + stride <= j * stride
  {
    assert j * stride == i * stride + stride + (j - i - 1) * stride;
    Monotone(stride, 0, j - i - 1);
  }

  /** Payload regions of a valid ring are inside the allocation and pairwise disjoint. */
  lemma PayloadsDisjoint(g: Geometry, i: nat, j: nat)
    requires g.Valid() && i < g.capacity && j < g.capacity
    ensures g.storage <= g.PayloadStart(i)
    ensures g.PayloadStart(i) + g.payloadCapacity <= g.SlotStart(i) + g.stride <= g.storage + g.capacity * g.stride
    ensures i < j ==> g.PayloadStart(i) + g.payloadCapacity <= g.SlotStart(j)
  {
    SlotsApart(g.stride, i, g.capacity);
    if i < j {
      SlotsApart(g.stride, i, j);
    }
  }

  // ------------------------------------------------------------ slot checks

  datatype Header = Header(name: Word, nameLen: Word, value: Word, valueLen: Word)

  /** The response a handler packs into its slot; `content` stands for the payload bytes. */
  datatype SlotData = SlotData(
    moduleId: Word, requestSeq: Word, headersLen: Word, contentLength: Word,
    bodyOffset: Word, bodyLen: Word, payloadLen: Word,
    status: int, compressHint: int, headers: seq<Header>, content: seq<bv8>)

  predicate RangeValid(offset: Word, length: Word, total: Word) {
    offset <= total && (var rest: Word := total - offset; length <= rest)
  }

  predicate PointerRangeValid(value: Word, valueLen: Word, payload: Word, payloadLen: Word) {
    && value != 0
    && payloadLen <= SIZE_MAX - payload
    && (var payloadEnd: Word := payload + payloadLen;
        && payload <= value <= payloadEnd
        && (var rest: Word := payloadEnd - value; valueLen <= rest))
  }

  predicate HeaderValid(h: Header, payload: Word, payloadLen: Word) {
    && PointerRangeValid(h.name, h.nameLen, payload, payloadLen)
    && PointerRangeValid(h.value, h.valueLen, payload, payloadLen)
  }

  /** What validation of slot data decides; the header array has room for 64 entries. */
  predicate DataValid(d: SlotData, payload: Word, payloadCapacity: nat) {
    && d.moduleId != 0 && d.requestSeq != 0 && d.status >= 200
    && d.headersLen <= MAX_HEADERS && d.headersLen <= |d.headers|
    && d.payloadLen <= payloadCapacity
    && RangeValid(d.bodyOffset, d.bodyLen, d.payloadLen)
    && forall k :: 0 <= k < d.headersLen ==> HeaderValid(d.headers[k], payload, d.payloadLen)
  }

  /** The validation loop of the shim. */
  method CheckSlotData(d: SlotData, payload: Word, payloadCapacity: nat) returns (ok: bool)
    requires |d.headers| == MAX_HEADERS
    ensures ok <==> DataValid(d, payload, payloadCapacity)
  {
    if d.moduleId == 0 || d.requestSeq == 0 || d.status < 200
       || d.headersLen > MAX_HEADERS || d.payloadLen > payloadCapacity
       || !RangeValid(d.bodyOffset, d.bodyLen, d.payloadLen)
    {
      return false;
    }
    var index := 0;
    while index < d.headersLen
      invariant 0 <= index <= d.headersLen
      invariant forall k :: 0 <= k < index ==> HeaderValid(d.headers[k], payload, d.payloadLen)
    {
      var header := d.headers[index];
      if !PointerRangeValid(header.name, header.nameLen, payload, d.payloadLen)
         || !PointerRangeValid(header.value, header.valueLen, payload, d.payloadLen)
      {
        return false;
      }
      index := index + 1;
    }
    return true;
  }

  /** `[start, start + length)` lies in `[base, base + total)`, in unbounded arithmetic. */
  predicate Within(start: nat, length: nat, base: nat, total: nat) {
    base <= start && start + length <= base + total
  }

  /** The response names a request and every range it uses is inside slot `index`'s own payload. */
  ghost predicate OwnsItsRanges(g: Geometry, index: nat, d: SlotData) {
    && d.moduleId != 0 && d.requestSeq != 0 && d.status >= 200
    && d.headersLen <= MAX_HEADERS && d.headersLen <= |d.headers|
    && d.payloadLen <= g.payloadCapacity
    && d.bodyOffset + d.bodyLen <= d.payloadLen
    && forall k :: 0 <= k < d.headersLen ==>
         var h := d.headers[k];
         && Within(h.name, h.nameLen, g.PayloadStart(index), d.payloadLen)
         && Within(h.value, h.valueLen, g.PayloadStart(index), d.payloadLen)
  }

  predicate SlotDataValid(g: Geometry, index: nat, d: SlotData) {
    && g.PayloadStart(index) <= SIZE_MAX
    && DataValid(d, g.PayloadStart(index), g.payloadCapacity)
  }

  /** The overflow-safe checks accept exactly the data whose ranges lie in the slot's own payload. */
  lemma ChecksExact(g: Geometry, index: nat, d: SlotData)
    requires g.Valid() && index < g.capacity
    ensures SlotDataValid(g, index, d) <==> OwnsItsRanges(g, index, d)
  {
    PayloadsDisjoint(g, index, index);
    var payload := g.PayloadStart(index);
    if d.payloadLen <= g.payloadCapacity {
      forall h: Header
        ensures HeaderValid(h, payload, d.payloadLen)
           <==> Within(h.name, h.nameLen, payload, d.payloadLen) && Within(h.value, h.valueLen, payload, d.payloadLen)
      {
      }
    }
  }

  /** Accepted header ranges of one slot never reach into another slot. */
  lemma AcceptedRangesStayHome(g: Geometry, i: nat, j: nat, d: SlotData, k: nat)
    requires g.Valid() && i < g.capacity && j < g.capacity && i != j
    requires SlotDataValid(g, i, d) && k < d.headersLen
    ensures var h := d.headers[k];
            && (h.name + h.nameLen <= g.SlotStart(j) || g.SlotStart(j) + g.stride <= h.name)
            && (h.value + h.valueLen <= g.SlotStart(j) || g.SlotStart(j) + g.stride <= h.value)
  {
    hide SlotDataValid, Geometry.PayloadStart, Geometry.SlotStart;
    ChecksExact(g, i, d);
    PayloadsApart(g, i, j);
  }

  /** The payload of one slot lies wholly before or wholly after another slot. */
  lemma PayloadsApart(g: Geometry, i: nat, j: nat)
    requires g.Valid() && i < g.capacity && j < g.capacity && i != j
    ensures g.PayloadStart(i) + g.payloadCapacity <= g.SlotStart(j) || g.SlotStart(j) + g.stride <= g.PayloadStart(i)
  {
    if i < j {
      PayloadsDisjoint(g, i, j);
    } else {
      Monotone(g.stride, j + 1, i);
      assert g.stride * (j + 1) == j * g.stride + g.stride;
    }
  }
}
