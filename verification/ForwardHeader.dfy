/**
  The private header that carries a QUIC datagram's addresses from one worker to
  another: the byte codec in place, and what its results mean on byte sequences.
*/
module ForwardHeader {
  import opened Numbers
  import opened Wrappers

  type Byte = x: int | 0 <= x < 256
  type Bytes = seq<Byte>

  const MAX_SIZE: nat := 1 + 4 + (1 + 16 + 2) * 2 + 1
  const MARK: Byte := 0x80
  const VERSION: nat := 0x91c1_7000

  /** A socket address; flow information and scope exist in memory only, not in the header. */
  datatype Address =
    | V4(ip: Bytes, port: Bytes)
    | V6(ip: Bytes, port: Bytes, flowInfo: nat, scopeId: nat)
    | Unspecified
    | OtherFamily(family: nat)
  {
    predicate Sized() {
      match this
      case V4(ip, port) => |ip| == 4 && |port| == 2
      case V6(ip, port, _, _) => |ip| == 16 && |port| == 2
      case _ => true
    }

    /** What of the address travels in the header. */
    function Carried(): Address {
      if V6? then V6(ip, port, 0, 0) else this
    }
  }

  datatype Header = Header(destination: Address, source: Address, ttl: Byte)

  // ------------------------------------------------------- on byte sequences

  /** Most significant byte first. */
  function Bytes32(v: nat): Bytes
    requires v < 0x1_0000_0000
  {
    [v / 0x100_0000, v / 0x1_0000 % 0x100, v / 0x100 % 0x100, v % 0x100]
  }

  function Number32(b: Bytes): int
    requires |b| == 4
  {
    0x100_0000 * b[0] as int + 0x1_0000 * b[1] as int + 0x100 * b[2] as int + b[3] as int
  }

  lemma SameDigits(a: Bytes, b: Bytes)
    requires |a| == |b| == 4 && Number32(a) == Number32(b)
    ensures a == b
  {
    assert a[0] == b[0] && a[1] == b[1] && a[2] == b[2] && a[3] == b[3];
  }

  /** The version check reads the four bytes that the encoder writes, and no others. */
  lemma VersionBytes(b: Bytes)
    requires |b| == 4
    ensures Number32(b) == VERSION <==> b == Bytes32(VERSION)
  {
    assert Number32(Bytes32(VERSION)) == VERSION;
    if Number32(b) == VERSION {
      SameDigits(b, Bytes32(VERSION));
    }
  }

  function AddressBytes(a: Address): Bytes
    requires !a.OtherFamily?
  {
    match a
    case V4(ip, port) => [4] + ip + port
    case V6(ip, port, _, _) => [6] + ip + port
    case Unspecified => [0]
  }

  function HeaderBytes(h: Header): Bytes
    requires !h.destination.OtherFamily? && !h.source.OtherFamily?
  {
    [MARK] + Bytes32(VERSION) + AddressBytes(h.destination) + AddressBytes(h.source) + [h.ttl]
  }

  /** The address at the front of `s`, if there is a whole one. */
  function AddressAt(s: Bytes): Option<Address> {
    if s == [] then None
    else if s[0] == 4 then if |s| < 7 then None else Some(V4(s[1..5], s[5..7]))
    else if s[0] == 6 then if |s| < 19 then None else Some(V6(s[1..17], s[17..19], 0, 0))
    else if s[0] == 0 then Some(Unspecified)
    else None
  }

  /** The addresses and the time to live, once mark and version are past. */
  function AddressesAt(s: Bytes): Option<Header> {
    var destination := AddressAt(s);
    if destination.None? then None else
    var afterFirst := s[AddressSize(destination.value)..];
    var source := AddressAt(afterFirst);
    if source.None? then None else
    var afterSecond := afterFirst[AddressSize(source.value)..];
    if |afterSecond| < 1 then None
    else Some(Header(destination.value, source.value, afterSecond[0]))
  }

  function HeaderAt(s: Bytes): Option<Header> {
    if |s| < 6 || s[0] != MARK || Number32(s[1..5]) != VERSION then None else AddressesAt(s[5..])
  }

  function AddressSize(a: Address): nat {
    match a
    case V4(_, _) => 7
    case V6(_, _, _, _) => 19
    case _ => 1
  }

  function HeaderSize(h: Header): nat {
    5 + AddressSize(h.destination) + AddressSize(h.source) + 1
  }

  predicate Encodable(h: Header) {
    && h.destination.Sized() && h.source.Sized()
    && !h.destination.OtherFamily? && !h.source.OtherFamily?
  }

  function CarriedHeader(h: Header): Header {
    Header(h.destination.Carried(), h.source.Carried(), h.ttl)
  }

  lemma AddressRoundTrip(a: Address, rest: Bytes)
    requires a.Sized() && !a.OtherFamily?
    ensures |AddressBytes(a)| == AddressSize(a)
    ensures AddressAt(AddressBytes(a) + rest) == Some(a.Carried())
    ensures (AddressBytes(a) + rest)[AddressSize(a)..] == rest
  {
    var s := AddressBytes(a) + rest;
    if a.V4? {
      assert s[1..5] == a.ip && s[5..7] == a.port;
    } else if a.V6? {
      assert s[1..17] == a.ip && s[17..19] == a.port;
    }
  }

  lemma AddressesRoundTrip(h: Header, payload: Bytes)
    requires Encodable(h)
    ensures AddressesAt(AddressBytes(h.destination) + (AddressBytes(h.source) + ([h.ttl] + payload))) ==
      Some(CarriedHeader(h))
  {
    hide AddressBytes, AddressAt;
    AddressRoundTrip(h.source, [h.ttl] + payload);
    AddressRoundTrip(h.destination, AddressBytes(h.source) + ([h.ttl] + payload));
  }

  /** Decoding an encoded header with any payload behind it gives back what travels, and where the payload starts. */
  lemma RoundTrip(h: Header, payload: Bytes)
    requires Encodable(h)
    ensures HeaderAt(HeaderBytes(h) + payload) == Some(CarriedHeader(h))
    ensures |HeaderBytes(h)| == HeaderSize(h) == HeaderSize(CarriedHeader(h)) <= MAX_SIZE
    ensures (HeaderBytes(h) + payload)[HeaderSize(CarriedHeader(h))..] == payload
  {
    hide AddressBytes, AddressAt, AddressesAt;
    AddressesRoundTrip(h, payload);
    AddressRoundTrip(h.source, []);
    AddressRoundTrip(h.destination, []);
    var s := HeaderBytes(h) + payload;
    assert s[1..5] == Bytes32(VERSION);
    VersionBytes(s[1..5]);
    assert s[5..] == AddressBytes(h.destination) + (AddressBytes(h.source) + ([h.ttl] + payload));
  }

  lemma AddressReencodes(s: Bytes)
    requires AddressAt(s).Some?
    ensures var a := AddressAt(s).value;
            && a.Sized() && !a.OtherFamily? && a.Carried() == a
            && AddressSize(a) <= |s| && AddressBytes(a) == s[..AddressSize(a)]
  {
  }

  lemma ThreeParts(s: Bytes, first: nat, second: nat)
    requires first + second < |s|
    ensures s[first..][second..][0] == s[first + second]
    ensures s[..first] + s[first..][..second] + [s[first + second]] == s[..first + second + 1]
  {
  }

  lemma AddressesReencode(s: Bytes)
    requires AddressesAt(s).Some?
    ensures var h := AddressesAt(s).value;
            var n := AddressSize(h.destination) + AddressSize(h.source) + 1;
            && Encodable(h) && CarriedHeader(h) == h && n <= |s|
            && AddressBytes(h.destination) + AddressBytes(h.source) + [h.ttl] == s[..n]
  {
    hide AddressBytes, AddressAt, AddressSize;
    var h := AddressesAt(s).value;
    AddressReencodes(s);
    var first := AddressSize(h.destination);
    var rest := s[first..];
    AddressReencodes(rest);
    var second := AddressSize(h.source);
    ThreeParts(s, first, second);
  }

  /** Every header that is accepted encodes to exactly the bytes it was read from. */
  lemma Reencode(s: Bytes)
    requires HeaderAt(s).Some?
    ensures var h := HeaderAt(s).value;
            Encodable(h) && CarriedHeader(h) == h && HeaderSize(h) <= |s| && HeaderBytes(h) == s[..HeaderSize(h)]
  {
    hide AddressBytes, AddressesAt;
    var h := HeaderAt(s).value;
    VersionBytes(s[1..5]);
    AddressesReencode(s[5..]);
    var body := AddressBytes(h.destination) + AddressBytes(h.source) + [h.ttl];
    assert HeaderBytes(h) == [MARK] + Bytes32(VERSION) + body;
    assert s[..HeaderSize(h)] == [MARK] + s[1..5] + body;
  }

  /** So a byte string is accepted exactly when it starts with the encoding of some header. */
  lemma AcceptedExactly(s: Bytes)
    ensures HeaderAt(s).Some? <==>
      exists h :: Encodable(h) && HeaderSize(h) <= |s| && HeaderBytes(h) == s[..HeaderSize(h)]
  {
    if HeaderAt(s).Some? {
      Reencode(s);
    }
    forall h | Encodable(h) && HeaderSize(h) <= |s| && HeaderBytes(h) == s[..HeaderSize(h)] ensures HeaderAt(s).Some? {
      RoundTrip(h, s[HeaderSize(h)..]);
      assert s == HeaderBytes(h) + s[HeaderSize(h)..];
    }
  }

  /** What follows a header does not change how it is read. */
  lemma Extends(s: Bytes, rest: Bytes)
    requires HeaderAt(s).Some?
    ensures HeaderAt(s + rest) == HeaderAt(s)
  {
    hide HeaderAt, HeaderBytes;
    Reencode(s);
    var h := HeaderAt(s).value;
    RoundTrip(h, s[HeaderSize(h)..] + rest);
    assert s + rest == HeaderBytes(h) + (s[HeaderSize(h)..] + rest);
  }

  /** A header cut short anywhere is not taken for a header. */
  lemma CutShort(h: Header, k: nat)
    requires Encodable(h) && k < |HeaderBytes(h)|
    ensures HeaderAt(HeaderBytes(h)[..k]) == None
  {
    hide HeaderBytes, HeaderAt;
    var bytes := HeaderBytes(h);
    RoundTrip(h, []);
    assert bytes + [] == bytes == bytes[..k] + bytes[k..];
    if HeaderAt(bytes[..k]).Some? {
      Extends(bytes[..k], bytes[k..]);
      Reencode(bytes[..k]);
    }
  }

  // --------------------------------------------------------------- in memory

  method Store(buffer: array<Byte>, at: nat, bytes: Bytes)
    requires at + |bytes| <= buffer.Length
    modifies buffer
    ensures buffer[..at + |bytes|] == old(buffer[..at]) + bytes
  {
    forall i | 0 <= i < |bytes| {
      buffer[at + i] := bytes[i];
    }
  }

  /** Writes one address at `at`; no position after it when the family has no encoding. */
  method EncodeAddress(buffer: array<Byte>, at: nat, a: Address) returns (next: Option<nat>)
    requires a.Sized() && at + 19 <= buffer.Length
    modifies buffer
    ensures next.None? <==> a.OtherFamily?
    ensures next.Some? ==>
      && next.value == at + AddressSize(a)
      && buffer[..next.value] == old(buffer[..at]) + AddressBytes(a)
  {
    match a {
      case V4(ip, port) =>
        buffer[at] := 4;
        assert buffer[..at + 1] == old(buffer[..at]) + [4];
        Store(buffer, at + 1, ip);
        Store(buffer, at + 5, port);
        next := Some(at + 7);
      case V6(ip, port, _, _) =>
        buffer[at] := 6;
        assert buffer[..at + 1] == old(buffer[..at]) + [6];
        Store(buffer, at + 1, ip);
        Store(buffer, at + 17, port);
        next := Some(at + 19);
      case Unspecified =>
        buffer[at] := 0;
        next := Some(at + 1);
      case OtherFamily(_) =>
        next := None;
    }
  }

  /** The size of the header written to the front of the buffer, or SIZE_MAX. */
  method EncodeHeader(buffer: array<Byte>, destination: Address, source: Address, ttl: Byte) returns (size: nat)
    requires destination.Sized() && source.Sized() && buffer.Length == MAX_SIZE
    modifies buffer
    ensures var h := Header(destination, source, ttl);
            if Encodable(h) then size == HeaderSize(h) <= MAX_SIZE && buffer[..size] == HeaderBytes(h)
            else size == SIZE_MAX
  {
    buffer[0] := MARK;
    assert buffer[..1] == [MARK];
    Store(buffer, 1, Bytes32(VERSION));
    var next := EncodeAddress(buffer, 5, destination);
    if next.None? {
      return SIZE_MAX;
    }
    next := EncodeAddress(buffer, next.value, source);
    if next.None? {
      return SIZE_MAX;
    }
    buffer[next.value] := ttl;
    size := next.value + 1;
    assert buffer[..size] == buffer[..next.value] + [ttl];
  }

  /** Reads one address at `src`; never looks past the end of the octets. */
  method DecodeAddress(octets: array<Byte>, src: nat) returns (address: Option<Address>, next: nat)
    requires src <= octets.Length
    ensures address == AddressAt(octets[src..])
    ensures address.Some? ==> next == src + AddressSize(address.value) <= octets.Length
  {
    next := src;
    if src >= octets.Length {
      return None, next;
    }
    ghost var s := octets[src..];
    var kind := octets[src];
    next := src + 1;
    if kind == 4 {
      if octets.Length - next < 6 {
        return None, next;
      }
      assert octets[next..next + 4] == s[1..5] && octets[next + 4..next + 6] == s[5..7];
      address := Some(V4(octets[next..next + 4], octets[next + 4..next + 6]));
      next := next + 6;
    } else if kind == 6 {
      if octets.Length - next < 18 {
        return None, next;
      }
      assert octets[next..next + 16] == s[1..17] && octets[next + 16..next + 18] == s[17..19];
      address := Some(V6(octets[next..next + 16], octets[next + 16..next + 18], 0, 0));
      next := next + 18;
    } else if kind == 0 {
      address := Some(Unspecified);
    } else {
      address := None;
    }
  }

  /** The header at the front of the octets and the offset of what follows, or SIZE_MAX. */
  method DecodeHeader(octets: array<Byte>) returns (header: Option<Header>, offset: nat)
    ensures header == HeaderAt(octets[..])
    ensures offset == if header.Some? then HeaderSize(header.value) else SIZE_MAX
    ensures header.Some? ==> offset <= octets.Length
  {
    if octets.Length < 6 || octets[0] != MARK {
      return None, SIZE_MAX;
    }
    assert octets[1..5] == octets[..][1..5];
    if Number32(octets[1..5]) != VERSION {
      return None, SIZE_MAX;
    }
    var destination, afterFirst := DecodeAddress(octets, 5);
    assert octets[5..] == octets[..][5..];
    if destination.None? {
      return None, SIZE_MAX;
    }
    var source, afterSecond := DecodeAddress(octets, afterFirst);
    assert octets[afterFirst..] == octets[..][5..][AddressSize(destination.value)..];
    if source.None? || octets.Length - afterSecond < 1 {
      return None, SIZE_MAX;
    }
    assert octets[afterSecond] == octets[afterFirst..][AddressSize(source.value)..][0];
    return Some(Header(destination.value, source.value, octets[afterSecond])), afterSecond + 1;
  }

  // ---------------------------------------------------- forwarded datagrams

  predicate PortMatches(destination: Address, port: Bytes) {
    match destination
    case V4(_, p) => p == port
    case V6(_, p, _, _) => p == port
    case _ => true
  }

  datatype Datagram = Datagram(addressing: Option<Header>, payload: Bytes)

  /** What a worker that listens on `port` makes of a datagram on its forwarding socket. */
  function Rewritten(datagram: Bytes, port: Bytes): Datagram {
    var h := HeaderAt(datagram);
    if h.Some? && PortMatches(h.value.destination, port) && HeaderSize(h.value) <= |datagram|
    then Datagram(h, datagram[HeaderSize(h.value)..])
    else Datagram(None, datagram)
  }

  /**
    Forwarding is undone exactly: the packet and its addressing arrive if the
    port is the listener's, and only then.
  */
  lemma ForwardingUndone(h: Header, packet: Bytes, port: Bytes)
    requires Encodable(h)
    ensures Rewritten(HeaderBytes(h) + packet, port) ==
            if (h.destination.V4? ==> h.destination.port == port) && (h.destination.V6? ==> h.destination.port == port)
            then Datagram(Some(CarriedHeader(h)), packet)
            else Datagram(None, HeaderBytes(h) + packet)
  {
    RoundTrip(h, packet);
  }

  /**
    Any other datagram is left as it is: only what starts with an encoded header
    for the listener's port is unpacked.
  */
  lemma OnlyForwardedIsUnpacked(datagram: Bytes, port: Bytes)
    requires Rewritten(datagram, port) != Datagram(None, datagram)
    ensures exists h, packet ::
      && Encodable(h) && datagram == HeaderBytes(h) + packet
      && (h.destination.V4? ==> h.destination.port == port) && (h.destination.V6? ==> h.destination.port == port)
      && Rewritten(datagram, port) == Datagram(Some(h), packet)
  {
    var h := HeaderAt(datagram).value;
    Reencode(datagram);
    assert datagram == HeaderBytes(h) + datagram[HeaderSize(h)..];
  }

  // ------------------------------------------------------------ on the wire

  /** The bytes of an address: its family's digit, the address, the port. */
  ghost predicate IsLaidOut(b: Bytes, a: Address) {
    match a
    case V4(ip, port) => |b| == 7 && b[0] == 4 && b[1..5] == ip && b[5..7] == port
    case V6(ip, port, _, _) => |b| == 19 && b[0] == 6 && b[1..17] == ip && b[17..19] == port
    case Unspecified => b == [0]
    case OtherFamily(_) => false
  }

  /**
    Byte by byte: the mark, the version with its most significant byte first,
    both addresses, and the time to live last.
  */
  lemma HeaderLayout(h: Header)
    requires Encodable(h)
    ensures var b, m := HeaderBytes(h), AddressSize(h.destination);
            && |b| == HeaderSize(h) && 6 + m < |b|
            && b[0] == 0x80 && b[1] == 0x91 && b[2] == 0xc1 && b[3] == 0x70 && b[4] == 0x00
            && IsLaidOut(b[5..5 + m], h.destination) && IsLaidOut(b[5 + m..|b| - 1], h.source)
            && b[|b| - 1] == h.ttl
  {
    var d, o := AddressBytes(h.destination), AddressBytes(h.source);
    AddressLayout(h.destination);
    AddressLayout(h.source);
    var b, m := HeaderBytes(h), AddressSize(h.destination);
    assert b == [MARK] + Bytes32(VERSION) + d + o + [h.ttl];
    assert b[5..5 + m] == d && b[5 + m..|b| - 1] == o;
  }

  lemma AddressLayout(a: Address)
    requires a.Sized() && !a.OtherFamily?
    ensures |AddressBytes(a)| == AddressSize(a) && IsLaidOut(AddressBytes(a), a)
  {
    var b := AddressBytes(a);
    match a {
      case V4(ip, port) => assert b[1..5] == ip && b[5..7] == port;
      case V6(ip, port, _, _) => assert b[1..17] == ip && b[17..19] == port;
      case Unspecified =>
    }
  }
}
