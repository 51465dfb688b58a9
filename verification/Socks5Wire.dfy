/** The bytes on the wire, written out as RFC 1928 (sections 3 to 7) and RFC 1929 (section 2) number them. */
module Socks5Wire {
  import opened Prelude
  import opened Socks5Grammar
  import opened Socks5Codec

  // ---------------------------------------------------------------- requests

  lemma TwoBytes(hi: byte, lo: byte, rest: Bytes)
    ensures Take([hi, lo] + rest, 2) == Done([hi, lo], rest)
  {
    assert ([hi, lo] + rest)[..2] == [hi, lo] && ([hi, lo] + rest)[2..] == rest;
  }

  lemma RequestTail(command: byte, s: Bytes)
    ensures ParseRequest([5, command, 0] + s) ==
            match ParseAddrSpec(s)
            case Fail => Fail
            case Done(spec, rest) => Done(Request(command, 0, spec.0, spec.1), rest)
  {
    assert ([5, command, 0] + s)[3..] == s;
  }

  /** Address type 3: a length byte and a domain name. */
  lemma NameOnWire(command: byte, name: Bytes, hi: byte, lo: byte, rest: Bytes)
    requires |name| <= 255
    ensures ParseRequest([5, command, 0] + ([3, |name|] + name + ([hi, lo] + rest))) ==
            Done(Request(command, 0, Name(name), 256 * hi as int + lo as int), rest)
  {
    var s := [3, |name|] + name + ([hi, lo] + rest);
    RequestTail(command, s);
    assert s[1..] == Block(name) + ([hi, lo] + rest);
    BlockParsed(name, [hi, lo] + rest);
    TwoBytes(hi, lo, rest);
  }

  /** Address type 1: four bytes. */
  lemma IPv4OnWire(command: byte, ip: Bytes, hi: byte, lo: byte, rest: Bytes)
    requires |ip| == 4
    ensures ParseRequest([5, command, 0] + ([1] + ip + ([hi, lo] + rest))) ==
            Done(Request(command, 0, V4(ip), 256 * hi as int + lo as int), rest)
  {
    var s := [1] + ip + ([hi, lo] + rest);
    RequestTail(command, s);
    assert s[1..] == ip + ([hi, lo] + rest);
    TwoBytes(hi, lo, rest);
  }

  /** Address type 4: sixteen bytes. */
  lemma IPv6OnWire(command: byte, ip: Bytes, hi: byte, lo: byte, rest: Bytes)
    requires |ip| == 16
    ensures ParseRequest([5, command, 0] + ([4] + ip + ([hi, lo] + rest))) ==
            Done(Request(command, 0, V6(ip), 256 * hi as int + lo as int), rest)
  {
    var s := [4] + ip + ([hi, lo] + rest);
    RequestTail(command, s);
    assert s[1..] == ip + ([hi, lo] + rest);
    TwoBytes(hi, lo, rest);
  }

  /** Any other version or address type is refused. */
  lemma OtherRequestsRefused(s: Bytes)
    ensures |s| >= 4 && (s[0] != 5 || s[3] !in {1, 3, 4}) ==> ParseRequest(s) == Fail
  {
    if |s| >= 4 {
      assert s[3..][0] == s[3];
    }
  }

  // ---------------------------------------------------------------- methods and login

  /** Version 1, then user name and password, each behind its length. */
  function Credentials(user: Bytes, pass: Bytes): Bytes
    requires |user| <= 255 && |pass| <= 255
  {
    [1, |user|] + user + ([|pass|] + pass)
  }

  lemma LoginOnWire(user: Bytes, pass: Bytes, rest: Bytes)
    requires |user| <= 255 && |pass| <= 255
    ensures ParseLogin(Credentials(user, pass) + rest) == Done(Login(user, pass), rest)
  {
    var s, tail := Credentials(user, pass) + rest, Block(pass) + rest;
    assert s[1..] == Block(user) + tail;
    BlockParsed(user, tail);
    BlockParsed(pass, rest);
  }

  lemma OtherLoginRefused(s: Bytes)
    ensures s != [] && s[0] != 1 ==> ParseLogin(s) == Fail
  {
  }

  predicate Offered(code: byte, methods: Bytes) { exists i :: 0 <= i < |methods| && methods[i] == code }

  /** A greeting is version 5, a count and that many methods. */
  function Greet(methods: Bytes, rest: Bytes): Bytes
    requires |methods| <= 255
  {
    [5, |methods|] + methods + rest
  }

  lemma GreetParsed(methods: Bytes, rest: Bytes)
    requires |methods| <= 255
    ensures Greet(methods, rest)[0] == 5 && ParseBlock(Greet(methods, rest)[1..]) == Done(methods, rest)
  {
    assert Greet(methods, rest)[1..] == Block(methods) + rest;
    BlockParsed(methods, rest);
  }

  /** No other version is spoken, and nothing is written. */
  lemma OtherVersionRefused(s: Bytes, enableAuth: bool, auth: (Bytes, Bytes) -> bool)
    requires s == [] || s[0] != 5
    ensures ParseHandshake(s, enableAuth, auth) == Reject([])
  {
  }

  /** The method wanted is 2 with authentication and 0 without; if it is not offered, the answer is 255. */
  lemma NoAcceptableMethod(methods: Bytes, rest: Bytes, enableAuth: bool, auth: (Bytes, Bytes) -> bool)
    requires |methods| <= 255 && !Offered(if enableAuth then 2 else 0, methods)
    ensures ParseHandshake(Greet(methods, rest), enableAuth, auth) == Reject([5, 255])
  {
    GreetParsed(methods, rest);
    assert Method(enableAuth) !in methods;
  }

  /** Without authentication, method 0 is answered, and the request follows. */
  lemma OpenHandshake(methods: Bytes, s: Bytes, auth: (Bytes, Bytes) -> bool)
    requires |methods| <= 255 && Offered(0, methods)
    ensures ParseHandshake(Greet(methods, s), false, auth) ==
            match ParseRequest(s)
            case Fail => Reject([5, 0])
            case Done(req, rest) => Accept([5, 0], Handshake(methods, None, req), rest)
  {
    GreetParsed(methods, s);
    assert Method(false) in methods;
  }

  /** With authentication, method 2 is answered; then the login, with 1 and 0 if it is right and 1 and 1 if it is not;
      then the request. */
  lemma LoginHandshake(methods: Bytes, user: Bytes, pass: Bytes, s: Bytes, auth: (Bytes, Bytes) -> bool)
    requires |methods| <= 255 && Offered(2, methods) && |user| <= 255 && |pass| <= 255
    ensures ParseHandshake(Greet(methods, Credentials(user, pass) + s), true, auth) ==
            if !auth(user, pass) then Reject([5, 2, 1, 1])
            else
              match ParseRequest(s)
              case Fail => Reject([5, 2, 1, 0])
              case Done(req, rest) => Accept([5, 2, 1, 0], Handshake(methods, Some(Login(user, pass)), req), rest)
  {
    GreetParsed(methods, Credentials(user, pass) + s);
    LoginOnWire(user, pass, s);
    assert Method(true) in methods;
  }

  /** A malformed login is not answered beyond the choice of the method. */
  lemma BrokenLogin(methods: Bytes, s: Bytes, auth: (Bytes, Bytes) -> bool)
    requires |methods| <= 255 && Offered(2, methods) && ParseLogin(s).Fail?
    ensures ParseHandshake(Greet(methods, s), true, auth) == Reject([5, 2])
  {
    GreetParsed(methods, s);
    assert Method(true) in methods;
  }

  // ---------------------------------------------------------------- replies

  /** Version, code, 0, address type, address and port. */
  lemma RepliesOnWire(code: byte, name: Bytes, v4: Bytes, v6: Bytes, hi: byte, lo: byte)
    requires 1 <= |name| <= 255 && |v4| == 4 && |v6| == 16
    requires v6[..12] != [0, 0, 0, 0, 0, 0, 0, 0, 0, 0, 255, 255]
    ensures var port := 256 * hi as int + lo as int;
            && ReplyAddr(Some(AddrSpec(name, [], port))).Some?
            && ReplyAddr(Some(AddrSpec([], v4, port))).Some? && ReplyAddr(Some(AddrSpec([], v6, port))).Some?
            && ReplyBytes(code, Some(AddrSpec(name, [], port))) == [5, code, 0, 3, |name|] + name + [hi, lo]
            && ReplyBytes(code, Some(AddrSpec([], v4, port))) == [5, code, 0, 1] + v4 + [hi, lo]
            && ReplyBytes(code, Some(AddrSpec([], v6, port))) == [5, code, 0, 4] + v6 + [hi, lo]
  {
    var port := 256 * hi as int + lo as int;
    assert port % 65536 == port && port / 256 == hi as int && port % 256 == lo as int;
    assert [5, code, 0, 3] + ([|name|] + name) == [5, code, 0, 3, |name|] + name;
  }

  /** A refusal carries its code and the address 0.0.0.0:0, and is read back as such. */
  lemma RefusalOnWire(code: byte)
    ensures ReplyAddr(None).Some? && ReplyBytes(code, None) == [5, code, 0, 1, 0, 0, 0, 0, 0, 0]
    ensures ParseRequest(ReplyBytes(code, None)) == Done(Request(code, 0, V4([0, 0, 0, 0]), 0), [])
  {
    ReplyReadBack(code, None);
    RefusalBytes(code);
  }

  lemma RefusalBytes(code: byte)
    ensures ReplyAddr(None).Some? && ReplyBytes(code, None) == [5, code, 0, 1, 0, 0, 0, 0, 0, 0]
  {
  }

  /** A mapped IPv4 address is written as the IPv4 address that it maps. */
  lemma MappedAddressFolds(v4: Bytes)
    requires |v4| == 4
    ensures To4([0, 0, 0, 0, 0, 0, 0, 0, 0, 0, 255, 255] + v4) == Some(v4)
  {
    var ip := [0, 0, 0, 0, 0, 0, 0, 0, 0, 0, 255, 255] + v4;
    assert ip[..12] == V4_PREFIX && ip[12..] == v4;
  }

  // ---------------------------------------------------------------- datagrams

  /** Two reserved bytes, a fragment number, and address and port as in a request, then the data. */
  lemma DatagramsOnWire(frag: byte, name: Bytes, v4: Bytes, v6: Bytes, hi: byte, lo: byte, data: Bytes)
    requires 1 <= |name| <= 255 && |v4| == 4 && |v6| == 16 && data != []
    ensures ParseDatagram([0, 0, frag, 1] + v4 + [hi, lo] + data) == Some(Datagram([0, 0], frag, 1, v4, [hi, lo], data))
    ensures ParseDatagram([0, 0, frag, 4] + v6 + [hi, lo] + data) == Some(Datagram([0, 0], frag, 4, v6, [hi, lo], data))
    ensures ParseDatagram([0, 0, frag, 3, |name|] + name + [hi, lo] + data) ==
            Some(Datagram([0, 0], frag, 3, [|name|] + name, [hi, lo], data))
  {
    Printed(Datagram([0, 0], frag, 1, v4, [hi, lo], data));
    Printed(Datagram([0, 0], frag, 4, v6, [hi, lo], data));
    Printed(Datagram([0, 0], frag, 3, [|name|] + name, [hi, lo], data));
    assert [0, 0, frag, 3] + ([|name|] + name) == [0, 0, frag, 3, |name|] + name;
  }

  lemma Printed(d: Datagram)
    requires d.rsv == [0, 0] && DatagramOk(d)
    ensures ParseDatagram([0, 0, d.frag, d.atyp] + d.dstAddr + d.dstPort + d.data) == Some(d)
  {
    DatagramParsed(d);
    assert [0, 0] + [d.frag] + [d.atyp] == [0, 0, d.frag, d.atyp];
  }

  /** Where a received datagram is addressed to. */
  lemma DatagramAddress(frag: byte, name: Bytes, v4: Bytes, hi: byte, lo: byte, data: Bytes)
    requires 1 <= |name| <= 255 && |v4| == 4 && data != []
    ensures ToAddress(Datagram([0, 0], frag, 1, v4, [hi, lo], data)) == Some((Ip(v4), 256 * hi as int + lo as int))
    ensures ToAddress(Datagram([0, 0], frag, 3, [|name|] + name, [hi, lo], data)) ==
            Some((HostName(name), 256 * hi as int + lo as int))
  {
  }

  /** A new datagram is not fragmented, and its reserved bytes are 0. */
  lemma NewDatagramOnWire(v4: Bytes, hi: byte, lo: byte, data: Bytes)
    requires |v4| == 4
    ensures DatagramBytes(NewDatagram(Ip(v4), 256 * hi as int + lo as int, data)) == [0, 0, 0, 1] + v4 + [hi, lo] + data
  {
    var port := 256 * hi as int + lo as int;
    assert port % 65536 == port && port / 256 == hi as int && port % 256 == lo as int;
  }
}
