/** The handshake as the server runs it: a buffered reader over a connection that delivers its bytes in chunks of any
    size, and a writer for the answers. Whatever the chunks, it decides as the grammar does. */
module Socks5Server {
  import opened Prelude
  import opened Socks5Grammar
  import Codec = Socks5Codec
  import Wire = Socks5Wire

  const COMMAND_NOT_SUPPORTED: byte := 7

  lemma ConcatCons(c: Bytes, cs: seq<Bytes>)
    ensures Concat([c] + cs) == c + Concat(cs)
  {
    ConcatAppend([c], cs);
    assert [c] == [] + [c];
    ConcatSnoc([], c);
  }

  class Socks5Conn {
    /** Bytes read from the connection but not yet consumed, the reads still to come, and the bytes written. */
    var buf: Bytes
    var incoming: seq<Bytes>
    var out: Bytes

    constructor (incoming: seq<Bytes>)
      requires forall c <- incoming :: c != []
      ensures Valid() && Rest() == Concat(incoming) && out == []
    {
      this.buf, this.incoming, this.out := [], incoming, [];
    }

    /** A read of a TCP connection yields at least one byte, or fails. */
    predicate Valid()
      reads this
    {
      forall c <- incoming :: c != []
    }

    function Rest(): Bytes
      reads this
    {
      buf + Concat(incoming)
    }

    /** One read of at most `n` bytes; it fails at the end of the stream. */
    method Read(n: nat) returns (data: Option<Bytes>)
      requires Valid() && 0 < n
      modifies this`buf, this`incoming
      ensures Valid()
      ensures data.None? <==> old(Rest()) == []
      ensures data.None? ==> Rest() == []
      ensures data.Some? ==> 0 < |data.value| <= n && old(Rest()) == data.value + Rest()
    {
      if buf == [] {
        if incoming == [] {
          return None;
        }
        assert incoming == [incoming[0]] + incoming[1..];
        assert incoming[0] in incoming;
        ConcatCons(incoming[0], incoming[1..]);
        buf, incoming := incoming[0], incoming[1..];
        assert forall c <- incoming :: c in old(incoming);
        assert Rest() == old(Rest());
      }
      var k := if n < |buf| then n else |buf|;
      data := Some(buf[..k]);
      assert buf == buf[..k] + buf[k..];
      buf := buf[k..];
    }

    /** Reads exactly `n` bytes, or fails because fewer are left. */
    method ReadFull(n: nat) returns (data: Option<Bytes>)
      requires Valid()
      modifies this`buf, this`incoming
      ensures Valid()
      ensures match Take(old(Rest()), n)
              case Fail => data.None?
              case Done(v, rest) => data == Some(v) && Rest() == rest
    {
      var got: Bytes := [];
      while |got| < n
        invariant Valid() && |got| <= n
        invariant old(Rest()) == got + Rest()
        decreases n - |got|
      {
        var part := Read(n - |got|);
        if part.None? {
          return None;
        }
        got := got + part.value;
      }
      data := Some(got);
    }

    method Write(data: Bytes)
      modifies this`out
      ensures out == old(out) + data
    {
      out := out + data;
    }

    /** A length byte and that many bytes: auth methods, user, password, domain name. */
    method ReadBlock() returns (data: Option<Bytes>)
      requires Valid()
      modifies this`buf, this`incoming
      ensures Valid()
      ensures match ParseBlock(old(Rest()))
              case Fail => data.None?
              case Done(v, rest) => data == Some(v) && Rest() == rest
    {
      var header := Read(1);
      if header.None? {
        return None;
      }
      assert old(Rest())[1..] == Rest();
      data := ReadFull(header.value[0]);
    }

    method ReadLogin() returns (login: Option<Login>)
      requires Valid()
      modifies this`buf, this`incoming
      ensures Valid()
      ensures match ParseLogin(old(Rest()))
              case Fail => login.None?
              case Done(v, rest) => login == Some(v) && Rest() == rest
    {
      var header := ReadFull(2);
      if header.None? || header.value[0] != AUTH_VERSION {
        return None;
      }
      assert old(Rest())[1..][1..] == Rest();
      var user := ReadFull(header.value[1]);
      if user.None? {
        return None;
      }
      var pass := ReadBlock();
      if pass.None? {
        return None;
      }
      login := Some(Login(user.value, pass.value));
    }

    method ReadHost() returns (addr: Option<Addr>)
      requires Valid()
      modifies this`buf, this`incoming
      ensures Valid()
      ensures match ParseHost(old(Rest()))
              case Fail => addr.None?
              case Done(v, rest) => addr == Some(v) && Rest() == rest
    {
      var addrType := Read(1);
      if addrType.None? {
        return None;
      }
      assert old(Rest())[1..] == Rest();
      if addrType.value[0] == IPV4 {
        var ip := ReadFull(4);
        return if ip.Some? then Some(V4(ip.value)) else None;
      } else if addrType.value[0] == IPV6 {
        var ip := ReadFull(16);
        return if ip.Some? then Some(V6(ip.value)) else None;
      } else if addrType.value[0] == FQDN {
        var name := ReadBlock();
        return if name.Some? then Some(Name(name.value)) else None;
      }
      addr := None;
    }

    method ReadAddrSpec() returns (spec: Option<(Addr, nat)>)
      requires Valid()
      modifies this`buf, this`incoming
      ensures Valid()
      ensures match ParseAddrSpec(old(Rest()))
              case Fail => spec.None?
              case Done(v, rest) => spec == Some(v) && Rest() == rest
    {
      var addr := ReadHost();
      if addr.None? {
        return None;
      }
      var port := ReadFull(2);
      if port.None? {
        return None;
      }
      spec := Some((addr.value, PortOf(port.value[0], port.value[1])));
    }

    method NewRequest() returns (req: Option<Request>)
      requires Valid()
      modifies this`buf, this`incoming
      ensures Valid()
      ensures match ParseRequest(old(Rest()))
              case Fail => req.None?
              case Done(v, rest) => req == Some(v) && Rest() == rest
    {
      var header := ReadFull(3);
      if header.None? || header.value[0] != VERSION {
        return None;
      }
      var spec := ReadAddrSpec();
      if spec.None? {
        return None;
      }
      req := Some(Request(header.value[1], header.value[2], spec.value.0, spec.value.1));
    }

    /** Picks the method the server wants, if it is offered, and checks the login if that method is user/password. */
    method Authenticate(enableAuth: bool, auth: (Bytes, Bytes) -> bool) returns (who: Option<(Bytes, Option<Login>)>)
      requires Valid()
      modifies this
      ensures Valid()
      ensures var (written, parsed) := ParseAuth(old(Rest()), enableAuth, auth);
              && out == old(out) + written
              && (parsed.Fail? ==> who.None?)
              && (parsed.Done? ==> who == Some(parsed.value) && Rest() == parsed.rest)
    {
      var methods := ReadBlock();
      if methods.None? {
        return None;
      }
      if Method(enableAuth) !in methods.value {
        Write([VERSION, NO_ACCEPTABLE]);
        return None;
      }
      if enableAuth {
        var login := UserPassAuth(auth);
        return if login.Some? then Some((methods.value, login)) else None;
      }
      Write([VERSION, NO_AUTH]);
      who := Some((methods.value, None));
    }

    method UserPassAuth(auth: (Bytes, Bytes) -> bool) returns (login: Option<Login>)
      requires Valid()
      modifies this
      ensures Valid()
      ensures match ParseLogin(old(Rest()))
              case Fail => login.None? && out == old(out) + [VERSION, USER_PASS]
              case Done(v, rest) =>
                if auth(v.user, v.pass) then
                  login == Some(v) && out == old(out) + [VERSION, USER_PASS, AUTH_VERSION, 0] && Rest() == rest
                else login.None? && out == old(out) + [VERSION, USER_PASS, AUTH_VERSION, 1]
    {
      Write([VERSION, USER_PASS]);
      login := ReadLogin();
      if login.Some? {
        if auth(login.value.user, login.value.pass) {
          Write([AUTH_VERSION, 0]);
        } else {
          Write([AUTH_VERSION, 1]);
          login := None;
        }
      }
    }

    /** `serveSocks5Conn` up to the point where the request is dispatched. */
    method ServeHandshake(enableAuth: bool, auth: (Bytes, Bytes) -> bool) returns (h: Option<Handshake>)
      requires Valid() && out == []
      modifies this
      ensures Valid()
      ensures match ParseHandshake(old(Rest()), enableAuth, auth)
              case Reject(written) => h.None? && out == written
              case Accept(written, v, rest) => h == Some(v) && out == written && Rest() == rest
    {
      var version := Read(1);
      if version.None? || version.value[0] != VERSION {
        return None;
      }
      assert old(Rest())[1..] == Rest();
      var who := Authenticate(enableAuth, auth);
      if who.None? {
        return None;
      }
      var req := NewRequest();
      if req.None? {
        return None;
      }
      h := Some(Handshake(who.value.0, who.value.1, req.value));
    }

    /** `handleSocks5Request` up to the handlers: CONNECT (1) and ASSOCIATE (3) go on and write nothing yet; BIND (2)
        and unknown commands are refused with code 7 and the address 0.0.0.0:0. */
    method Dispatch(req: Request) returns (goesOn: bool)
      modifies this`out
      ensures goesOn <==> req.command == 1 || req.command == 3
      ensures out == old(out) + if goesOn then [] else [5, 7, 0, 1, 0, 0, 0, 0, 0, 0]
      ensures !goesOn ==> ParseRequest(out[|old(out)|..]) == Done(Request(7, 0, V4([0, 0, 0, 0]), 0), [])
    {
      if req.command == CONNECT {
        return true;
      } else if req.command == BIND {
        Refuse(COMMAND_NOT_SUPPORTED);
        return false;
      } else if req.command == ASSOCIATE {
        return true;
      }
      Refuse(COMMAND_NOT_SUPPORTED);
      goesOn := false;
    }

    method Refuse(code: byte)
      modifies this`out
      ensures out == old(out) + [5, code, 0, 1, 0, 0, 0, 0, 0, 0]
      ensures ParseRequest(out[|old(out)|..]) == Done(Request(code, 0, V4([0, 0, 0, 0]), 0), [])
    {
      var reply := Codec.ReplySocks5Client(code, None);
      Wire.RefusalOnWire(code);
      Write(reply.value);
      assert out[|old(out)|..] == reply.value;
    }

    /** CONNECT drains what the reader has buffered; the rest of the stream stays unread on the connection. */
    method TakeExtra() returns (extra: Bytes)
      modifies this`buf
      ensures extra == old(buf) && buf == [] && incoming == old(incoming)
      ensures extra + Concat(incoming) == old(Rest())
    {
      extra := buf;
      buf := [];
    }
  }

  /** The decision depends on the bytes alone and not on how they arrive. A stream whose handshake is accepted is split
      in three without loss: the handshake, the extra bytes handed to the tunnel, and what is still to be read. */
  method Connect(incoming: seq<Bytes>, enableAuth: bool, auth: (Bytes, Bytes) -> bool)
    returns (h: Option<Handshake>, extra: Bytes, unread: seq<Bytes>)
    requires forall c <- incoming :: c != []
    ensures match ParseHandshake(Concat(incoming), enableAuth, auth)
            case Reject(_) => h.None?
            case Accept(_, v, rest) => h == Some(v) && rest == extra + Concat(unread)
    ensures h.Some? ==>
              && WellFormed(h.value, enableAuth, auth)
              && Concat(incoming) == Print(h.value) + extra + Concat(unread)
  {
    var conn := new Socks5Conn(incoming);
    h := conn.ServeHandshake(enableAuth, auth);
    extra, unread := [], [];
    if h.Some? {
      AcceptedIsPrinted(Concat(incoming), enableAuth, auth);
      extra := conn.TakeExtra();
      unread := conn.incoming;
      assert Print(h.value) + extra + Concat(unread) == Print(h.value) + (extra + Concat(unread));
    }
  }
}
