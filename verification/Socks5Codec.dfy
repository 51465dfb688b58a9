/** Replies and UDP datagrams (RFC 1928 sections 6 and 7): what the server writes, read back. */
module Socks5Codec {
  import opened Prelude
  import opened Socks5Grammar

  // ---------------------------------------------------------------- IP addresses

  /** The 12 bytes in front of an IPv4 address that is written as an IPv6 one. */
  const V4_PREFIX: Bytes := [0, 0, 0, 0, 0, 0, 0, 0, 0, 0, 255, 255]

  /** An address of 4 bytes, or of 16 bytes that map one. */
  function To4(ip: Bytes): Option<Bytes> {
    if |ip| == 4 then Some(ip)
    else if |ip| == 16 && ip[..12] == V4_PREFIX then Some(ip[12..])
    else None
  }

  function To16(ip: Bytes): Option<Bytes> {
    if |ip| == 4 then Some(V4_PREFIX + ip) else if |ip| == 16 then Some(ip) else None
  }

  /** The address as the wire carries it: mapped IPv6 addresses are folded to IPv4. */
  function Fold(ip: Bytes): Addr
    requires |ip| == 4 || |ip| == 16
  {
    if To4(ip).Some? then V4(To4(ip).value) else V6(ip)
  }

  // ---------------------------------------------------------------- replies

  datatype AddrSpec = AddrSpec(fqdn: Bytes, ip: Bytes, port: int)

  /** The address type, body and port of a reply; `None` when the address cannot be written. */
  function ReplyAddr(addr: Option<AddrSpec>): Option<(byte, Bytes, nat)> {
    match addr
    case None => Some((IPV4, [0, 0, 0, 0], 0))
    case Some(a) =>
      if a.fqdn != [] then Some((FQDN, [|a.fqdn| % 256] + a.fqdn, a.port % 65536))
      else if To4(a.ip).Some? then Some((IPV4, To4(a.ip).value, a.port % 65536))
      else if To16(a.ip).Some? then Some((IPV6, To16(a.ip).value, a.port % 65536))
      else None
  }

  /** Formats a reply in a message buffer of its own; `None` is the formatting error. */
  method ReplySocks5Client(resp: byte, addr: Option<AddrSpec>) returns (msg: Option<Bytes>)
    ensures msg.None? <==> ReplyAddr(addr).None?
    ensures msg.Some? ==>
              var (addrType, body, port) := ReplyAddr(addr).value;
              msg.value == [VERSION, resp, 0, addrType] + body + [port / 256, port % 256]
  {
    var addrType: byte := IPV4;
    var addrBody: Bytes := [0, 0, 0, 0];
    var addrPort: nat := 0;
    if addr.Some? {
      var a := addr.value;
      addrPort := a.port % 65536;
      if a.fqdn != [] {
        addrType := FQDN;
        addrBody := [|a.fqdn| % 256] + a.fqdn;
      } else if To4(a.ip).Some? {
        addrType := IPV4;
        addrBody := To4(a.ip).value;
      } else if To16(a.ip).Some? {
        addrType := IPV6;
        addrBody := To16(a.ip).value;
      } else {
        return None;
      }
    }
    var n := |addrBody|;
    var buf := new byte[6 + n](_ => 0);
    var start: Bytes := [VERSION, resp, 0, addrType];
    CopyAt(buf, 0, start);
    assert buf[..4] == start;
    CopyAt(buf, 4, addrBody);
    assert buf[..4 + n] == buf[..4] + buf[4..4 + n];
    CopyAt(buf, 4 + n, [addrPort / 256, addrPort % 256]);
    assert buf[..] == buf[..4 + n] + buf[4 + n..];
    msg := Some(buf[..]);
  }

  /** Copies bytes into a buffer. */
  method CopyAt(buf: array<byte>, at: nat, data: Bytes)
    requires at + |data| <= buf.Length
    modifies buf
    ensures buf[..at] == old(buf[..at]) && buf[at..at + |data|] == data
    ensures buf[at + |data|..] == old(buf[at + |data|..])
  {
    for i := 0 to |data|
      invariant buf[..at] == old(buf[..at]) && buf[at + |data|..] == old(buf[at + |data|..])
      invariant forall k :: 0 <= k < i ==> buf[at + k] == data[k]
    {
      buf[at + i] := data[i];
    }
  }

  function ReplyBytes(resp: byte, addr: Option<AddrSpec>): Bytes
    requires ReplyAddr(addr).Some?
  {
    var (addrType, body, port) := ReplyAddr(addr).value;
    [VERSION, resp, 0, addrType] + body + [port / 256, port % 256]
  }

  /** The address that a reply is meant to carry. */
  function Meant(addr: Option<AddrSpec>): Addr
    requires ReplyAddr(addr).Some?
  {
    match addr
    case None => V4([0, 0, 0, 0])
    case Some(a) => if a.fqdn != [] then Name(a.fqdn) else Fold(a.ip)
  }

  function MeantPort(addr: Option<AddrSpec>): int { if addr.Some? then addr.value.port else 0 }

  lemma ReplyIsPrinted(resp: byte, addr: Option<AddrSpec>)
    requires ReplyAddr(addr).Some? && AddrOk(Meant(addr)) && 0 <= MeantPort(addr) < 65536
    ensures ReplyBytes(resp, addr) == PrintRequest(Request(resp, 0, Meant(addr), MeantPort(addr))) + []
  {
  }

  /** Read back with the grammar of requests, a reply gives its own code, address and port - exactly when the name, if
      any, has at most 255 bytes and the port is a 16-bit number. Longer names and ports are cut off. */
  lemma ReplyReadBack(resp: byte, addr: Option<AddrSpec>)
    requires ReplyAddr(addr).Some?
    ensures MeantPort(addr) >= 0 &&
            ParseRequest(ReplyBytes(resp, addr)) == Done(Request(resp, 0, Meant(addr), MeantPort(addr)), [])
            <==> AddrOk(Meant(addr)) && 0 <= MeantPort(addr) < 65536
  {
    if AddrOk(Meant(addr)) && 0 <= MeantPort(addr) < 65536 {
      ReplyIsPrinted(resp, addr);
      RequestParsed(Request(resp, 0, Meant(addr), MeantPort(addr)), []);
    } else {
      RequestPrinted(ReplyBytes(resp, addr));
    }
  }

  // ---------------------------------------------------------------- UDP datagrams

  datatype Datagram = Datagram(
    rsv: Bytes, frag: byte, atyp: byte, dstAddr: Bytes, dstPort: Bytes, data: Bytes)

  function DatagramBytes(d: Datagram): Bytes {
    d.rsv + [d.frag] + [d.atyp] + d.dstAddr + d.dstPort + d.data
  }

  /** Appends the fields to a growing buffer. */
  method AppendDatagram(d: Datagram) returns (b: Bytes)
    ensures b == DatagramBytes(d)
  {
    b := [];
    b := b + d.rsv;
    b := b + [d.frag];
    b := b + [d.atyp];
    b := b + d.dstAddr;
    b := b + d.dstPort;
    b := b + d.data;
  }

  /** The address field has the length its type asks for, a name is not empty, and there is data. */
  predicate DatagramOk(d: Datagram) {
    && |d.rsv| == 2 && |d.dstPort| == 2 && d.data != []
    && (|| (d.atyp == IPV4 && |d.dstAddr| == 4)
        || (d.atyp == IPV6 && |d.dstAddr| == 16)
        || (d.atyp == FQDN && 2 <= |d.dstAddr| && |d.dstAddr| == 1 + d.dstAddr[0] as int))
  }

  /** How long the address field of the datagram is, its length byte included. */
  function AddrLen(bb: Bytes): Option<nat> {
    if |bb| < 4 then None
    else if bb[3] == IPV4 then Some(4)
    else if bb[3] == IPV6 then Some(16)
    else if bb[3] == FQDN && 5 <= |bb| && bb[4] != 0 then Some(1 + bb[4] as int)
    else None
  }

  function ParseDatagram(bb: Bytes): Option<Datagram> {
    match AddrLen(bb)
    case None => None
    case Some(n) =>
      if |bb| <= 4 + n + 2 then None
      else Some(Datagram(bb[..2], bb[2], bb[3], bb[4..4 + n], bb[4 + n..6 + n], bb[6 + n..]))
  }

  /** Parses with a running minimum length, as the listener does. */
  method NewDatagramFromBytes(bb: Bytes) returns (d: Option<Datagram>)
    ensures d == ParseDatagram(bb)
  {
    var n := |bb|;
    var minl := 4;
    if n < minl {
      return None;
    }
    var addr: Bytes := [];
    if bb[3] == IPV4 {
      minl := minl + 4;
      if n < minl {
        return None;
      }
      addr := bb[minl - 4..minl];
    } else if bb[3] == IPV6 {
      minl := minl + 16;
      if n < minl {
        return None;
      }
      addr := bb[minl - 16..minl];
    } else if bb[3] == FQDN {
      minl := minl + 1;
      if n < minl {
        return None;
      }
      var l := bb[4];
      if l == 0 {
        return None;
      }
      minl := minl + l as int;
      if n < minl {
        return None;
      }
      addr := bb[minl - l as int..minl];
      addr := [l] + addr;
      assert addr == bb[4..minl];
    } else {
      return None;
    }
    minl := minl + 2;
    if n <= minl {
      return None;
    }
    d := Some(Datagram(bb[0..2], bb[2], bb[3], addr, bb[minl - 2..minl], bb[minl..]));
  }

  lemma DatagramPrinted(bb: Bytes)
    ensures var d := ParseDatagram(bb);
            d.Some? ==> DatagramOk(d.value) && DatagramBytes(d.value) == bb
  {
  }

  /** Where the fields of a printed datagram are. */
  lemma FieldsAt(d: Datagram)
    requires |d.rsv| == 2 && |d.dstPort| == 2
    ensures var bb, n := DatagramBytes(d), |d.dstAddr|;
            && |bb| == 6 + n + |d.data|
            && bb[..2] == d.rsv && bb[2] == d.frag && bb[3] == d.atyp
            && bb[4..4 + n] == d.dstAddr && bb[4 + n..6 + n] == d.dstPort && bb[6 + n..] == d.data
            && (d.dstAddr != [] ==> bb[4] == d.dstAddr[0])
  {
    var bb, n := DatagramBytes(d), |d.dstAddr|;
    assert bb == d.rsv + ([d.frag, d.atyp] + (d.dstAddr + (d.dstPort + d.data)));
    assert bb[2..] == [d.frag, d.atyp] + (d.dstAddr + (d.dstPort + d.data));
    assert bb[4..] == d.dstAddr + (d.dstPort + d.data);
    assert bb[4 + n..] == d.dstPort + d.data;
  }

  lemma DatagramParsed(d: Datagram)
    requires DatagramOk(d)
    ensures ParseDatagram(DatagramBytes(d)) == Some(d)
  {
    FieldsAt(d);
  }

  /** Printing and parsing datagrams undo each other. */
  lemma DatagramInverse(bb: Bytes, d: Datagram)
    ensures ParseDatagram(bb) == Some(d) <==> DatagramOk(d) && DatagramBytes(d) == bb
  {
    DatagramPrinted(bb);
    if DatagramOk(d) {
      DatagramParsed(d);
    }
  }

  // ---------------------------------------------------------------- datagram addresses

  /** The host part of a textual address, after `net.ParseIP` has told addresses from names. */
  datatype Host = Ip(ip: Bytes) | HostName(name: Bytes)

  predicate HostOk(h: Host) { h.Ip? ==> |h.ip| == 4 || |h.ip| == 16 }

  /** `parseAddress`: the address type, address field and port field for a host and a port number. A name already gets
      its length byte here. */
  function ParseAddress(h: Host, port: int): (byte, Bytes, Bytes)
    requires HostOk(h)
  {
    var p := [port % 65536 / 256, port % 65536 % 256];
    match h
    case Ip(ip) => if To4(ip).Some? then (IPV4, To4(ip).value, p) else (IPV6, ip, p)
    case HostName(name) => (FQDN, [|name| % 256] + name, p)
  }

  /** `NewDatagram`, which puts a length byte in front of a name once more. */
  function NewDatagram(h: Host, port: int, data: Bytes): Datagram
    requires HostOk(h)
  {
    var (atyp, addr, p) := ParseAddress(h, port);
    Datagram([0, 0], 0, atyp, if atyp == FQDN then [|addr| % 256] + addr else addr, p, data)
  }

  /** `toAddress`: the host and port that a received datagram is addressed to. */
  function ToAddress(d: Datagram): Option<(Host, nat)>
    requires DatagramOk(d)
  {
    var port := PortOf(d.dstPort[0], d.dstPort[1]);
    if d.atyp == FQDN then Some((HostName(d.dstAddr[1..]), port)) else Some((Ip(d.dstAddr), port))
  }

  function FoldHost(h: Host): Host
    requires HostOk(h)
  {
    if h.Ip? && To4(h.ip).Some? then Ip(To4(h.ip).value) else h
  }

  /** The address read from the bytes of a new datagram. */
  function Echo(h: Host, port: int, data: Bytes): Option<(Host, nat)>
    requires HostOk(h)
  {
    DatagramPrinted(DatagramBytes(NewDatagram(h, port, data)));
    match ParseDatagram(DatagramBytes(NewDatagram(h, port, data)))
    case None => None
    case Some(d) => ToAddress(d)
  }

  lemma IpEchoes(h: Host, port: int, data: Bytes)
    requires HostOk(h) && h.Ip? && data != []
    ensures Echo(h, port, data) == Some((FoldHost(h), port % 65536))
  {
    DatagramParsed(NewDatagram(h, port, data));
  }

  /** For a name of at most 254 bytes the double length byte makes the parsed name one byte longer: the name's own
      length, followed by the name. */
  lemma ShortNameEchoes(name: Bytes, port: int, data: Bytes)
    requires |name| <= 254 && data != []
    ensures Echo(HostName(name), port, data) == Some((HostName([|name|] + name), port % 65536))
  {
    var d := NewDatagram(HostName(name), port, data);
    assert d.dstAddr[1..] == [|name|] + name;
    DatagramParsed(d);
  }

  lemma LongNameEchoes(name: Bytes, port: int, data: Bytes)
    requires |name| >= 255
    ensures var e := Echo(HostName(name), port, data);
            e.Some? ==> (e.value.0.HostName? && |e.value.0.name| == (|name| + 1) % 256)
  {
    var bb := DatagramBytes(NewDatagram(HostName(name), port, data));
    assert bb == [0, 0, 0, FQDN, (|name| + 1) % 256] +
                 (([|name| % 256] + name) + [port % 65536 / 256, port % 65536 % 256] + data);
    DatagramPrinted(bb);
  }

  /** Through a new datagram an address survives, up to folding, exactly when it is an IP address and the port is a
      16-bit number: no name of any length does. */
  lemma AddressSurvivesExactly(h: Host, port: int, data: Bytes)
    requires HostOk(h) && data != []
    ensures (port >= 0 && Echo(h, port, data) == Some((FoldHost(h), port))) <==> h.Ip? && 0 <= port < 65536
  {
    if h.Ip? {
      IpEchoes(h, port, data);
    } else if |h.name| <= 254 {
      ShortNameEchoes(h.name, port, data);
    } else {
      LongNameEchoes(h.name, port, data);
    }
  }
}
