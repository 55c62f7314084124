/**
 SOCKS5 addresses and UDP datagrams (sections 5 and 7 of RFC 1928). The decoder is modelled over the
 position where the address is read from: 3 is what the code passes, 4 is the first octet after ATYP.
 */
module SocksDatagram {
  import opened Wrappers

  type Byte = b: nat | b < 256
  type Bytes = seq<Byte>

  /** An IP address in the 4-byte or the 16-byte form; other lengths are not addresses. */
  type IP = Bytes

  datatype UdpAddr = UdpAddr(ip: IP, port: int)

  const ATYP_IPV4: Byte := 0x01
  const ATYP_DOMAIN: Byte := 0x03
  const ATYP_IPV6: Byte := 0x04

  const V4_PREFIX: Bytes := [0, 0, 0, 0, 0, 0, 0, 0, 0, 0, 255, 255]

  function To4(ip: IP): Option<Bytes> {
    if |ip| == 4 then Some(ip)
    else if |ip| == 16 && ip[..12] == V4_PREFIX then Some(ip[12..])
    else None
  }

  function To16(ip: IP): Option<Bytes> {
    if |ip| == 4 then Some(V4_PREFIX + ip) else if |ip| == 16 then Some(ip) else None
  }

  predicate IsAddress(ip: IP) { |ip| == 4 || |ip| == 16 }

  /** net.IP.Equal: an IPv4 address equals its IPv4-mapped form. */
  predicate IpEqual(a: IP, b: IP) {
    if |a| == |b| then a == b
    else if |a| == 4 && |b| == 16 then b == V4_PREFIX + a
    else if |a| == 16 && |b| == 4 then a == V4_PREFIX + b
    else false
  }

  // ---------- Encoding ----------

  /** The number two octets denote in network byte order. */
  function Word(high: Byte, low: Byte): nat { 256 * (high as nat) + low as nat }

  function BigEndian16(port: int): (b: Bytes)
    ensures |b| == 2
    ensures Word(b[0], b[1]) == port % 0x1_0000
  {
    var p := port % 0x1_0000;
    [p / 256, p % 256]
  }

  /** ATYP and DST.ADDR as the encoder writes them. */
  function AddressField(ip: IP): Bytes {
    match To4(ip)
    case Some(v4) => [ATYP_IPV4] + v4
    case None => [ATYP_IPV6] + (if To16(ip).Some? then To16(ip).value else [])
  }

  function Datagram(source: UdpAddr, payload: Bytes): Bytes {
    [0, 0, 0] + AddressField(source.ip) + BigEndian16(source.port) + payload
  }

  method BuildSocksUDPDatagram(source: UdpAddr, payload: Bytes) returns (packet: Bytes)
    ensures packet == Datagram(source, payload)
    ensures |packet| >= 4 && packet[..3] == [0, 0, 0]
  {
    packet := [0, 0, 0];
    var v4 := To4(source.ip);
    if v4.Some? {
      packet := packet + [ATYP_IPV4];
      packet := packet + v4.value;
    } else {
      packet := packet + [ATYP_IPV6];
      var v6 := To16(source.ip);
      if v6.Some? {
        packet := packet + v6.value;
      }
    }
    assert packet == [0, 0, 0] + AddressField(source.ip);
    packet := packet + BigEndian16(source.port);
    packet := packet + payload;
  }

  // ---------- Decoding ----------

  datatype Host = Literal(ip: IP) | Domain(name: Bytes)

  datatype DecodeError = Fragmented | Truncated | EmptyDomain | UnsupportedType(atyp: Byte) | Unresolved

  datatype Address = Address(host: Host, port: nat, length: nat)

  /** DST.ADDR at the front of `data`, and how many octets it takes. */
  function ReadHost(data: Bytes, atyp: Byte): (r: Result<(Host, nat), DecodeError>)
    ensures r.Success? ==> r.value.1 <= |data|
  {
    if atyp == ATYP_IPV4 then
      if |data| < 4 then Failure(Truncated) else Success((Literal(data[..4]), 4))
    else if atyp == ATYP_DOMAIN then
      if |data| < 1 then Failure(Truncated)
      else if data[0] == 0 then Failure(EmptyDomain)
      else
        var end := 1 + data[0] as nat;
        if |data| < end then Failure(Truncated) else Success((Domain(data[1..end]), end))
    else if atyp == ATYP_IPV6 then
      if |data| < 16 then Failure(Truncated) else Success((Literal(data[..16]), 16))
    else Failure(UnsupportedType(atyp))
  }

  /** What readSocksAddress takes from the front of `data`: the address, then the port. */
  function ReadAddress(data: Bytes, atyp: Byte): (r: Result<Address, DecodeError>)
    ensures r.Success? ==> 0 < r.value.length <= |data|
  {
    match ReadHost(data, atyp)
    case Failure(e) => Failure(e)
    case Success((host, n)) =>
      if |data| < n + 2 then Failure(Truncated) else Success(Address(host, Word(data[n], data[n + 1]), n + 2))
  }

  /** The stream a SOCKS address is consumed from. */
  class ByteReader {
    const data: Bytes
    var position: nat

    constructor (data: Bytes)
      ensures this.data == data && position == 0
    {
      this.data := data;
      position := 0;
    }

    ghost predicate Valid()
      reads this
    {
      position <= |data|
    }

    ghost function Rest(): Bytes
      requires Valid()
      reads this
    {
      data[position..]
    }

    /** io.ReadFull; a short read consumes what is left. */
    method ReadFull(n: nat) returns (r: Option<Bytes>)
      requires Valid()
      modifies this`position
      ensures Valid()
      ensures if n <= |old(Rest())|
              then r == Some(old(Rest())[..n]) && Rest() == old(Rest())[n..] && position == old(position) + n
              else r == None && Rest() == []
    {
      if |data| - position < n {
        position := |data|;
        return None;
      }
      r := Some(data[position..position + n]);
      assert r.value == Rest()[..n];
      position := position + n;
      assert Rest() == old(Rest())[n..];
    }
  }

  method ReadSocksHost(reader: ByteReader, atyp: Byte) returns (r: Result<Host, DecodeError>)
    requires reader.Valid()
    modifies reader
    ensures reader.Valid()
    ensures match ReadHost(old(reader.Rest()), atyp)
      case Failure(e) => r == Failure(e)
      case Success((host, n)) =>
        r == Success(host) && reader.Rest() == old(reader.Rest())[n..] && reader.position == old(reader.position) + n
  {
    ghost var data := reader.Rest();
    if atyp == ATYP_IPV4 {
      var ip := reader.ReadFull(4);
      return if ip.None? then Failure(Truncated) else Success(Literal(ip.value));
    } else if atyp == ATYP_DOMAIN {
      var length := reader.ReadFull(1);
      if length.None? {
        return Failure(Truncated);
      }
      if length.value[0] == 0 {
        return Failure(EmptyDomain);
      }
      var name := reader.ReadFull(length.value[0]);
      if name.None? {
        return Failure(Truncated);
      }
      assert name.value == data[1..1 + data[0] as nat];
      return Success(Domain(name.value));
    } else if atyp == ATYP_IPV6 {
      var ip := reader.ReadFull(16);
      return if ip.None? then Failure(Truncated) else Success(Literal(ip.value));
    }
    return Failure(UnsupportedType(atyp));
  }

  method ReadSocksAddress(reader: ByteReader, atyp: Byte) returns (r: Result<Address, DecodeError>)
    requires reader.Valid()
    modifies reader
    ensures reader.Valid()
    ensures r == ReadAddress(old(reader.Rest()), atyp)
    ensures r.Success? ==> reader.Rest() == old(reader.Rest())[r.value.length..]
  {
    hide ReadHost;
    ghost var data := reader.Rest();
    var start := reader.position;
    var host := ReadSocksHost(reader, atyp);
    if host.Failure? {
      return Failure(host.error);
    }
    var consumed := reader.position - start;
    var port := reader.ReadFull(2);
    if port.None? {
      return Failure(Truncated);
    }
    assert port.value == data[consumed..consumed + 2];
    return Success(Address(host.value, Word(port.value[0], port.value[1]), consumed + 2));
  }

  /** How a name is resolved: ParseIP of its text, else the first address of a lookup. */
  type Resolver = Bytes -> Option<IP>

  /** A literal is printed and parsed again, which yields the 16-byte form of the same address. */
  function Resolve(host: Host, resolver: Resolver): Option<IP> {
    match host
    case Literal(ip) => To16(ip)
    case Domain(name) => resolver(name)
  }

  datatype Decoded = Decoded(payload: Bytes, destination: UdpAddr)

  /** The decoder, reading the address from octet `start`. */
  function Decode(packet: Bytes, start: nat, resolver: Resolver): Result<Decoded, DecodeError>
    requires start <= 4
  {
    if |packet| < 4 || packet[0] != 0 || packet[1] != 0 || packet[2] != 0 then Failure(Fragmented)
    else
      match ReadAddress(packet[start..], packet[3])
      case Failure(e) => Failure(e)
      case Success(a) =>
        match Resolve(a.host, resolver)
        case None => Failure(Unresolved)
        case Some(ip) => Success(Decoded(packet[start + a.length..], UdpAddr(ip, a.port)))
  }

  /** Where the code starts to read: at ATYP itself. */
  const WRITTEN_START := 3
  /** Where DST.ADDR starts. */
  const INTENDED_START := 4

  method ParseSocksUDPDatagram(packet: Bytes, resolver: Resolver) returns (r: Result<Decoded, DecodeError>)
    ensures r == Decode(packet, WRITTEN_START, resolver)
  {
    if |packet| < 4 || packet[0] != 0 || packet[1] != 0 || packet[2] != 0 {
      return Failure(Fragmented);
    }
    var reader := new ByteReader(packet[3..]);
    var address := ReadSocksAddress(reader, packet[3]);
    if address.Failure? {
      return Failure(address.error);
    }
    var consumed := |packet[3..]| - (|reader.data| - reader.position);
    var ip := Resolve(address.value.host, resolver);
    if ip.None? {
      return Failure(Unresolved);
    }
    return Success(Decoded(packet[3 + consumed..], UdpAddr(ip.value, address.value.port)));
  }

  // ---------- Encoding against decoding ----------

  /** Decoding from `start` gives back the address up to IPv4 mapping, the 16-bit port and the payload. */
  ghost predicate RoundTrips(source: UdpAddr, payload: Bytes, start: nat, resolver: Resolver)
    requires start <= 4
  {
    var r := Decode(Datagram(source, payload), start, resolver);
    && r.Success?
    && r.value.payload == payload
    && IpEqual(r.value.destination.ip, source.ip)
    && r.value.destination.port == source.port % 0x1_0000
  }

  /** The octets after RSV and FRAG, for an IPv4 and for an IPv6 source. */
  lemma {:induction false} DatagramLayout(source: UdpAddr, payload: Bytes)
    requires IsAddress(source.ip)
    ensures var d, a := Datagram(source, payload), AddressField(source.ip);
      && |a| == (if a[0] == ATYP_IPV4 then 5 else 17) && (a[0] == ATYP_IPV4 || a[0] == ATYP_IPV6)
      && d[..3] == [0, 0, 0] && d[3..3 + |a|] == a
      && d[3 + |a|..5 + |a|] == BigEndian16(source.port) && d[5 + |a|..] == payload
  {
  }

  /** Read from the octet after ATYP, decoding inverts encoding exactly for the sources that are addresses. */
  lemma {:induction false} IntendedRoundTripExactlyWhen(source: UdpAddr, payload: Bytes, resolver: Resolver)
    ensures RoundTrips(source, payload, INTENDED_START, resolver) <==> IsAddress(source.ip)
  {
    var d, port := Datagram(source, payload), BigEndian16(source.port);
    if IsAddress(source.ip) {
      DatagramLayout(source, payload);
      var address := AddressField(source.ip)[1..];
      assert d[4..] == address + port + payload;
      assert d[4..][..|address|] == address;
      assert d[4..][|address|..][..2] == port;
    } else {
      assert d == [0, 0, 0, ATYP_IPV6] + port + payload;
      var r := Decode(d, INTENDED_START, resolver);
      assert r.Failure? || |r.value.payload| < |payload|;
    }
  }

  /** What the code returns for an encoded IPv4 source: everything is read one octet too early. */
  lemma WrittenReadsIpv4Shifted(source: UdpAddr, payload: Bytes, resolver: Resolver)
    requires To4(source.ip).Some?
    ensures var v4, port := To4(source.ip).value, BigEndian16(source.port);
      Decode(Datagram(source, payload), WRITTEN_START, resolver)
      == Success(Decoded([port[1]] + payload,
                         UdpAddr(V4_PREFIX + [ATYP_IPV4, v4[0], v4[1], v4[2]], Word(v4[3], port[0]))))
  {
    DatagramLayout(source, payload);
    var d, v4, port := Datagram(source, payload), To4(source.ip).value, BigEndian16(source.port);
    var shifted := d[3..];
    assert shifted == [ATYP_IPV4] + v4 + port + payload;
    assert shifted[..4] == [ATYP_IPV4, v4[0], v4[1], v4[2]];
    assert shifted[4] == v4[3] && shifted[5] == port[0];
    assert d[9..] == [port[1]] + payload;
  }

  /** The same for an IPv6 source. */
  lemma WrittenReadsIpv6Shifted(source: UdpAddr, payload: Bytes, resolver: Resolver)
    requires To4(source.ip).None? && |source.ip| == 16
    ensures var ip, port := source.ip, BigEndian16(source.port);
      Decode(Datagram(source, payload), WRITTEN_START, resolver)
      == Success(Decoded([port[1]] + payload, UdpAddr([ATYP_IPV6] + ip[..15], Word(ip[15], port[0]))))
  {
    DatagramLayout(source, payload);
    var d, ip, port := Datagram(source, payload), source.ip, BigEndian16(source.port);
    var shifted := d[3..];
    assert shifted == [ATYP_IPV6] + ip + port + payload;
    assert d[3] == ATYP_IPV6;
    assert shifted[..16] == [ATYP_IPV6] + ip[..15];
    assert shifted[16] == ip[15] && shifted[17] == port[0];
    assert ReadAddress(shifted, ATYP_IPV6) == Success(Address(Literal(shifted[..16]), Word(ip[15], port[0]), 18));
    assert d[21..] == [port[1]] + payload;
  }

  /** So the code as written never gives an encoded datagram back. */
  lemma {:induction false} WrittenNeverRoundTrips(source: UdpAddr, payload: Bytes, resolver: Resolver)
    ensures !RoundTrips(source, payload, WRITTEN_START, resolver)
  {
    if To4(source.ip).Some? {
      WrittenReadsIpv4Shifted(source, payload, resolver);
    } else if |source.ip| == 16 {
      WrittenReadsIpv6Shifted(source, payload, resolver);
    } else {
      assert Datagram(source, payload)[3] == ATYP_IPV6;
    }
  }

  /** A request by name (ATYP 3) is taken for the three octets after ATYP, whatever length octet it carries. */
  lemma WrittenReadsEveryNameAsThreeOctets(packet: Bytes, resolver: Resolver)
    requires |packet| >= 4 && packet[..4] == [0, 0, 0, ATYP_DOMAIN]
    ensures Decode(packet, WRITTEN_START, resolver) ==
      if |packet| < 9 then Failure(Truncated)
      else if resolver(packet[4..7]).None? then Failure(Unresolved)
      else Success(Decoded(packet[9..], UdpAddr(resolver(packet[4..7]).value, Word(packet[7], packet[8]))))
  {
    assert packet[3] == packet[..4][3];
    assert packet[0] == packet[..4][0] && packet[1] == packet[..4][1] && packet[2] == packet[..4][2];
    if |packet| >= 9 {
      assert packet[3..][1..4] == packet[4..7];
    }
  }

  /** Read from the octet after ATYP, the same request names exactly the octets its length octet announces. */
  lemma IntendedReadsNames(name: Bytes, port: nat, payload: Bytes, resolver: Resolver)
    requires 0 < |name| < 256 && port < 0x1_0000 && resolver(name).Some?
    ensures Decode([0, 0, 0, ATYP_DOMAIN, |name|] + name + BigEndian16(port) + payload, INTENDED_START, resolver)
         == Success(Decoded(payload, UdpAddr(resolver(name).value, port)))
  {
    var d: Bytes := [0, 0, 0, ATYP_DOMAIN, |name|] + name + BigEndian16(port) + payload;
    assert d[4..] == [|name|] + name + BigEndian16(port) + payload;
    assert d[4..][1..1 + |name|] == name;
    assert d[4..][1 + |name|] == BigEndian16(port)[0] && d[4..][2 + |name|] == BigEndian16(port)[1];
    assert d[7 + |name|..] == payload;
  }

  /** A datagram is refused as fragmented or malformed exactly when RSV or FRAG is not zero or ATYP is missing. */
  lemma FragmentsAreRefused(packet: Bytes, start: nat, resolver: Resolver)
    requires start <= 4
    ensures Decode(packet, start, resolver) == Failure(Fragmented) <==>
      |packet| < 4 || packet[0] != 0 || packet[1] != 0 || packet[2] != 0
  {
  }

  /** Two addresses are equal when they are the same octets, or one is the IPv4-mapped form of the other. */
  lemma IpEqualExactlyWhen(a: IP, b: IP)
    ensures IpEqual(a, b) <==>
      || a == b
      || (|a| == 4 && |b| == 16 && b == [0, 0, 0, 0, 0, 0, 0, 0, 0, 0, 0xFF, 0xFF] + a)
      || (|a| == 16 && |b| == 4 && a == [0, 0, 0, 0, 0, 0, 0, 0, 0, 0, 0xFF, 0xFF] + b)
  {
  }

  /** A port in network byte order: the high octet first. */
  ghost function Port(high: nat, low: nat): nat { high * 256 + low }

  lemma DatagramParts(source: UdpAddr, payload: Bytes)
    ensures IsDatagram(Datagram(source, payload), [0, 0, 0] + AddressField(source.ip), source.port, payload)
  {
    hide AddressField;
    var front, port := [0, 0, 0] + AddressField(source.ip), BigEndian16(source.port);
    assert Datagram(source, payload) == front + port + payload;
    PortOctets(source.port);
  }

  lemma PortOctets(port: int)
    ensures BigEndian16(port)[0] == (port % 65536) / 256 && BigEndian16(port)[1] == (port % 65536) % 256
  {
  }

  lemma FieldsOfAddresses(ip: IP)
    ensures |ip| == 4 ==> AddressField(ip) == [1] + ip
    ensures |ip| == 16 ==>
      AddressField(ip) ==
        if ip[..12] == [0, 0, 0, 0, 0, 0, 0, 0, 0, 0, 0xFF, 0xFF] then [1] + ip[12..] else [4] + ip
  {
  }

  /** The octets of a datagram, written out for each form of address. */
  lemma DatagramWrittenOut(source: UdpAddr, payload: Bytes)
    ensures |source.ip| == 4 ==>
      IsDatagram(Datagram(source, payload), [0, 0, 0] + ([1] + source.ip), source.port, payload)
    ensures |source.ip| == 16 && source.ip[..12] == [0, 0, 0, 0, 0, 0, 0, 0, 0, 0, 0xFF, 0xFF] ==>
      IsDatagram(Datagram(source, payload), [0, 0, 0] + ([1] + source.ip[12..]), source.port, payload)
    ensures |source.ip| == 16 && source.ip[..12] != [0, 0, 0, 0, 0, 0, 0, 0, 0, 0, 0xFF, 0xFF] ==>
      IsDatagram(Datagram(source, payload), [0, 0, 0] + ([4] + source.ip), source.port, payload)
  {
    hide AddressField, Datagram, IsDatagram;
    DatagramParts(source, payload);
    FieldsOfAddresses(source.ip);
  }

  ghost predicate IsDatagram(d: Bytes, front: Bytes, port: int, payload: Bytes) {
    && |d| == |front| + 2 + |payload| && d[..|front|] == front && d[|front| + 2..] == payload
    && d[|front|] == (port % 65536) / 256 && d[|front| + 1] == (port % 65536) % 256
  }

  /** Which octets an address takes: 4, 16, or a length octet and as many as it says; then two of port. */
  lemma AddressTakes(data: Bytes, atyp: Byte)
    ensures atyp == 1 ==>
      ReadAddress(data, 1) ==
        if |data| < 6 then Failure(Truncated) else Success(Address(Literal(data[..4]), Port(data[4], data[5]), 6))
    ensures atyp == 4 ==>
      ReadAddress(data, 4) ==
        if |data| < 18 then Failure(Truncated) else Success(Address(Literal(data[..16]), Port(data[16], data[17]), 18))
    ensures atyp == 3 ==>
      ReadAddress(data, 3) ==
        if data == [] then Failure(Truncated)
        else if data[0] == 0 then Failure(EmptyDomain)
        else
          var n: nat := data[0];
          if |data| < n + 3 then Failure(Truncated)
          else Success(Address(Domain(data[1..n + 1]), Port(data[n + 1], data[n + 2]), n + 3))
    ensures atyp != 1 && atyp != 3 && atyp != 4 ==> ReadAddress(data, atyp) == Failure(UnsupportedType(atyp))
  {
  }
}
