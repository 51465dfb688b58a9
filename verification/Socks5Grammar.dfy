/** The SOCKS5 handshake as a grammar over the whole byte stream (RFC 1928 sections 3 to 5, RFC 1929 section 2), with
    the choices this server makes: a parser, a printer, and that each is the inverse of the other. */
module Socks5Grammar {
  import opened Prelude

  const VERSION: byte := 5
  const NO_AUTH: byte := 0
  const USER_PASS: byte := 2
  const AUTH_VERSION: byte := 1
  const NO_ACCEPTABLE: byte := 255

  const CONNECT: byte := 1
  const BIND: byte := 2
  const ASSOCIATE: byte := 3

  const IPV4: byte := 1
  const FQDN: byte := 3
  const IPV6: byte := 4

  /** A prefix of the input was recognised; `rest` follows it. */
  datatype Parsed<+T> = Fail | Done(value: T, rest: Bytes)

  datatype Addr = V4(ip: Bytes) | V6(ip: Bytes) | Name(name: Bytes)

  datatype Login = Login(user: Bytes, pass: Bytes)

  datatype Request = Request(command: byte, reserved: byte, addr: Addr, port: nat)

  datatype Handshake = Handshake(methods: Bytes, login: Option<Login>, req: Request)

  /** `out` is what the server has written by the time it decides. */
  datatype Verdict = Reject(out: Bytes) | Accept(out: Bytes, h: Handshake, rest: Bytes)

  // ---------------------------------------------------------------- parser

  function Take(s: Bytes, n: nat): Parsed<Bytes> {
    if |s| < n then Fail else Done(s[..n], s[n..])
  }

  /** A length byte and that many bytes. */
  function ParseBlock(s: Bytes): Parsed<Bytes> {
    if s == [] then Fail else Take(s[1..], s[0])
  }

  function ParseLogin(s: Bytes): Parsed<Login> {
    if |s| < 2 || s[0] != AUTH_VERSION then Fail
    else
      match ParseBlock(s[1..])
      case Fail => Fail
      case Done(user, s') =>
        match ParseBlock(s')
        case Fail => Fail
        case Done(pass, rest) => Done(Login(user, pass), rest)
  }

  function ParseHost(s: Bytes): Parsed<Addr> {
    if s == [] then Fail
    else if s[0] == IPV4 then
      match Take(s[1..], 4) case Fail => Fail case Done(ip, rest) => Done(V4(ip), rest)
    else if s[0] == IPV6 then
      match Take(s[1..], 16) case Fail => Fail case Done(ip, rest) => Done(V6(ip), rest)
    else if s[0] == FQDN then
      match ParseBlock(s[1..]) case Fail => Fail case Done(name, rest) => Done(Name(name), rest)
    else Fail
  }

  function PortOf(hi: byte, lo: byte): nat { (hi as int) * 256 + lo as int }

  function ParseAddrSpec(s: Bytes): Parsed<(Addr, nat)> {
    match ParseHost(s)
    case Fail => Fail
    case Done(addr, s') =>
      match Take(s', 2)
      case Fail => Fail
      case Done(p, rest) => Done((addr, PortOf(p[0], p[1])), rest)
  }

  function ParseRequest(s: Bytes): Parsed<Request> {
    if |s| < 3 || s[0] != VERSION then Fail
    else
      match ParseAddrSpec(s[3..])
      case Fail => Fail
      case Done(spec, rest) => Done(Request(s[1], s[2], spec.0, spec.1), rest)
  }

  function Method(enableAuth: bool): byte { if enableAuth then USER_PASS else NO_AUTH }

  /** The offered methods and, with authentication, the login; also what is written on the way. */
  function ParseAuth(s: Bytes, enableAuth: bool, auth: (Bytes, Bytes) -> bool)
    : (Bytes, Parsed<(Bytes, Option<Login>)>)
  {
    match ParseBlock(s)
    case Fail => ([], Fail)
    case Done(methods, s') =>
      if Method(enableAuth) !in methods then ([VERSION, NO_ACCEPTABLE], Fail)
      else if !enableAuth then ([VERSION, NO_AUTH], Done((methods, None), s'))
      else
        match ParseLogin(s')
        case Fail => ([VERSION, USER_PASS], Fail)
        case Done(login, rest) =>
          if auth(login.user, login.pass) then
            ([VERSION, USER_PASS, AUTH_VERSION, 0], Done((methods, Some(login)), rest))
          else ([VERSION, USER_PASS, AUTH_VERSION, 1], Fail)
  }

  function ParseHandshake(s: Bytes, enableAuth: bool, auth: (Bytes, Bytes) -> bool): Verdict {
    if s == [] || s[0] != VERSION then Reject([])
    else
      var (out, parsed) := ParseAuth(s[1..], enableAuth, auth);
      match parsed
      case Fail => Reject(out)
      case Done(who, s') =>
        match ParseRequest(s')
        case Fail => Reject(out)
        case Done(req, rest) => Accept(out, Handshake(who.0, who.1, req), rest)
  }

  // ---------------------------------------------------------------- printer

  function Block(b: Bytes): Bytes
    requires |b| <= 255
  {
    [|b|] + b
  }

  function PrintLogin(l: Login): Bytes
    requires |l.user| <= 255 && |l.pass| <= 255
  {
    [AUTH_VERSION] + Block(l.user) + Block(l.pass)
  }

  predicate AddrOk(a: Addr) {
    match a
    case V4(ip) => |ip| == 4
    case V6(ip) => |ip| == 16
    case Name(name) => |name| <= 255
  }

  function PrintHost(a: Addr): Bytes
    requires AddrOk(a)
  {
    match a
    case V4(ip) => [IPV4] + ip
    case V6(ip) => [IPV6] + ip
    case Name(name) => [FQDN] + Block(name)
  }

  function PrintPort(port: nat): Bytes
    requires port < 65536
  {
    [port / 256, port % 256]
  }

  function PrintRequest(r: Request): Bytes
    requires AddrOk(r.addr) && r.port < 65536
  {
    [VERSION, r.command, r.reserved] + PrintHost(r.addr) + PrintPort(r.port)
  }

  predicate LoginOk(l: Login) { |l.user| <= 255 && |l.pass| <= 255 }

  /** Every length fits its length byte, and the port its two bytes. */
  predicate Printable(h: Handshake) {
    && |h.methods| <= 255 && (h.login.Some? ==> LoginOk(h.login.value))
    && AddrOk(h.req.addr) && h.req.port < 65536
  }

  predicate WellFormed(h: Handshake, enableAuth: bool, auth: (Bytes, Bytes) -> bool) {
    && Printable(h) && Method(enableAuth) in h.methods
    && (h.login.Some? <==> enableAuth)
    && (h.login.Some? ==> auth(h.login.value.user, h.login.value.pass))
  }

  function PrintMaybe(l: Option<Login>): Bytes
    requires l.Some? ==> LoginOk(l.value)
  {
    if l.Some? then PrintLogin(l.value) else []
  }

  function Print(h: Handshake): Bytes
    requires Printable(h)
  {
    [VERSION] + Block(h.methods) + PrintMaybe(h.login) + PrintRequest(h.req)
  }

  // ---------------------------------------------------------------- what is printed is parsed

  lemma BlockParsed(b: Bytes, rest: Bytes)
    requires |b| <= 255
    ensures ParseBlock(Block(b) + rest) == Done(b, rest)
  {
    assert (Block(b) + rest)[1..] == b + rest;
  }

  lemma LoginParsed(l: Login, rest: Bytes)
    requires |l.user| <= 255 && |l.pass| <= 255
    ensures ParseLogin(PrintLogin(l) + rest) == Done(l, rest)
  {
    var tail := Block(l.pass) + rest;
    assert (PrintLogin(l) + rest)[1..] == Block(l.user) + tail;
    BlockParsed(l.user, tail);
    BlockParsed(l.pass, rest);
  }

  lemma HostParsed(a: Addr, rest: Bytes)
    requires AddrOk(a)
    ensures ParseHost(PrintHost(a) + rest) == Done(a, rest)
  {
    var s := PrintHost(a) + rest;
    match a
    case V4(ip) => assert s[1..] == ip + rest;
    case V6(ip) => assert s[1..] == ip + rest;
    case Name(name) =>
      assert s[1..] == Block(name) + rest;
      BlockParsed(name, rest);
  }

  lemma PortParsed(port: nat)
    requires port < 65536
    ensures PortOf(PrintPort(port)[0], PrintPort(port)[1]) == port
  {
  }

  lemma AddrSpecParsed(a: Addr, port: nat, rest: Bytes)
    requires AddrOk(a) && port < 65536
    ensures ParseAddrSpec(PrintHost(a) + (PrintPort(port) + rest)) == Done((a, port), rest)
  {
    var tail := PrintPort(port) + rest;
    HostParsed(a, tail);
    PortParsed(port);
    assert tail[..2] == PrintPort(port) && tail[2..] == rest;
  }

  lemma RequestParsed(r: Request, rest: Bytes)
    requires AddrOk(r.addr) && r.port < 65536
    ensures ParseRequest(PrintRequest(r) + rest) == Done(r, rest)
  {
    var s := PrintRequest(r) + rest;
    assert s[3..] == PrintHost(r.addr) + (PrintPort(r.port) + rest);
    AddrSpecParsed(r.addr, r.port, rest);
  }

  // ---------------------------------------------------------------- what is parsed was printed

  lemma BlockPrinted(s: Bytes)
    ensures var p := ParseBlock(s);
            p.Done? ==> |p.value| <= 255 && s == Block(p.value) + p.rest
  {
  }

  lemma LoginPrinted(s: Bytes)
    ensures var p := ParseLogin(s);
            p.Done? ==> |p.value.user| <= 255 && |p.value.pass| <= 255 && s == PrintLogin(p.value) + p.rest
  {
    if ParseLogin(s).Done? {
      BlockPrinted(s[1..]);
      BlockPrinted(ParseBlock(s[1..]).rest);
    }
  }

  lemma HostPrinted(s: Bytes)
    ensures var p := ParseHost(s); p.Done? ==> AddrOk(p.value) && s == PrintHost(p.value) + p.rest
  {
    if ParseHost(s).Done? && s[0] == FQDN {
      BlockPrinted(s[1..]);
    }
  }

  lemma PortPrinted(hi: byte, lo: byte)
    ensures PortOf(hi, lo) < 65536 && PrintPort(PortOf(hi, lo)) == [hi, lo]
  {
  }

  lemma AddrSpecPrinted(s: Bytes)
    ensures var p := ParseAddrSpec(s);
            p.Done? ==> AddrOk(p.value.0) && p.value.1 < 65536 &&
                        s == PrintHost(p.value.0) + (PrintPort(p.value.1) + p.rest)
  {
    if ParseAddrSpec(s).Done? {
      HostPrinted(s);
      var s' := ParseHost(s).rest;
      PortPrinted(s'[0], s'[1]);
      assert s' == [s'[0], s'[1]] + s'[2..];
    }
  }

  lemma RequestPrinted(s: Bytes)
    ensures var p := ParseRequest(s);
            p.Done? ==> AddrOk(p.value.addr) && p.value.port < 65536 && s == PrintRequest(p.value) + p.rest
  {
    if ParseRequest(s).Done? {
      AddrSpecPrinted(s[3..]);
    }
  }

  /** What the server writes while it accepts. */
  function Greeting(enableAuth: bool): Bytes {
    if enableAuth then [VERSION, USER_PASS, AUTH_VERSION, 0] else [VERSION, NO_AUTH]
  }

  lemma PrintSplit(h: Handshake, rest: Bytes)
    requires Printable(h)
    ensures Print(h) + rest == [VERSION] + (Block(h.methods) + (PrintMaybe(h.login) + (PrintRequest(h.req) + rest)))
  {
  }

  predicate WhoOk(methods: Bytes, login: Option<Login>, enableAuth: bool, auth: (Bytes, Bytes) -> bool) {
    && |methods| <= 255 && Method(enableAuth) in methods
    && (login.Some? <==> enableAuth)
    && (login.Some? ==> LoginOk(login.value) && auth(login.value.user, login.value.pass))
  }

  lemma AuthPrinted(s: Bytes, enableAuth: bool, auth: (Bytes, Bytes) -> bool)
    ensures var (out, p) := ParseAuth(s, enableAuth, auth);
            p.Done? ==>
              && WhoOk(p.value.0, p.value.1, enableAuth, auth) && out == Greeting(enableAuth)
              && s == Block(p.value.0) + (PrintMaybe(p.value.1) + p.rest)
  {
    var p := ParseAuth(s, enableAuth, auth).1;
    if p.Done? {
      BlockPrinted(s);
      if enableAuth {
        LoginPrinted(ParseBlock(s).rest);
      } else {
        assert [] + p.rest == p.rest;
      }
    }
  }

  lemma AuthParsed(methods: Bytes, login: Option<Login>, rest: Bytes, enableAuth: bool, auth: (Bytes, Bytes) -> bool)
    requires WhoOk(methods, login, enableAuth, auth)
    ensures ParseAuth(Block(methods) + (PrintMaybe(login) + rest), enableAuth, auth) ==
            (Greeting(enableAuth), Done((methods, login), rest))
  {
    BlockParsed(methods, PrintMaybe(login) + rest);
    if enableAuth {
      LoginParsed(login.value, rest);
    } else {
      assert PrintMaybe(login) + rest == rest;
    }
  }

  lemma AcceptedParts(s: Bytes, enableAuth: bool, auth: (Bytes, Bytes) -> bool)
    ensures var v := ParseHandshake(s, enableAuth, auth);
            v.Accept? ==>
              && WellFormed(v.h, enableAuth, auth) && v.out == Greeting(enableAuth) && s != [] && s[0] == VERSION
              && s[1..] == Block(v.h.methods) + (PrintMaybe(v.h.login) + (PrintRequest(v.h.req) + v.rest))
  {
    if ParseHandshake(s, enableAuth, auth).Accept? {
      AuthPrinted(s[1..], enableAuth, auth);
      RequestPrinted(ParseAuth(s[1..], enableAuth, auth).1.rest);
    }
  }

  lemma AcceptedIsPrinted(s: Bytes, enableAuth: bool, auth: (Bytes, Bytes) -> bool)
    ensures var v := ParseHandshake(s, enableAuth, auth);
            v.Accept? ==> WellFormed(v.h, enableAuth, auth) && s == Print(v.h) + v.rest && v.out == Greeting(enableAuth)
  {
    var v := ParseHandshake(s, enableAuth, auth);
    if v.Accept? {
      AcceptedParts(s, enableAuth, auth);
      PrintSplit(v.h, v.rest);
      assert s == [VERSION] + s[1..];
    }
  }

  lemma PrintedIsAccepted(h: Handshake, rest: Bytes, enableAuth: bool, auth: (Bytes, Bytes) -> bool)
    requires WellFormed(h, enableAuth, auth)
    ensures ParseHandshake(Print(h) + rest, enableAuth, auth) == Accept(Greeting(enableAuth), h, rest)
  {
    var tail := PrintRequest(h.req) + rest;
    var s := [VERSION] + (Block(h.methods) + (PrintMaybe(h.login) + tail));
    PrintSplit(h, rest);
    assert s[1..] == Block(h.methods) + (PrintMaybe(h.login) + tail);
    AuthParsed(h.methods, h.login, tail, enableAuth, auth);
    RequestParsed(h.req, rest);
  }

  /** The server accepts exactly the streams that begin with a well-formed handshake, and takes from them exactly that
      handshake: methods, user, password, command, address and port. */
  lemma AcceptExactly(s: Bytes, h: Handshake, rest: Bytes, enableAuth: bool, auth: (Bytes, Bytes) -> bool)
    ensures ParseHandshake(s, enableAuth, auth) == Accept(Greeting(enableAuth), h, rest) <==>
            WellFormed(h, enableAuth, auth) && s == Print(h) + rest
  {
    AcceptedIsPrinted(s, enableAuth, auth);
    if WellFormed(h, enableAuth, auth) && s == Print(h) + rest {
      PrintedIsAccepted(h, rest, enableAuth, auth);
    }
  }

  /** No stream begins with two different well-formed handshakes. */
  lemma HandshakeUnique(h: Handshake, rest: Bytes, h': Handshake, rest': Bytes, enableAuth: bool,
                        auth: (Bytes, Bytes) -> bool)
    requires WellFormed(h, enableAuth, auth) && WellFormed(h', enableAuth, auth)
    requires Print(h) + rest == Print(h') + rest'
    ensures h == h' && rest == rest'
  {
    PrintedIsAccepted(h, rest, enableAuth, auth);
    PrintedIsAccepted(h', rest', enableAuth, auth);
  }
}
