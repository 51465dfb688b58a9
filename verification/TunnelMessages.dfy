/** The messages that a pop server and a node exchange over one websocket, the FIFO queues that carry them, and the
    TCP connections at either end. */
module TunnelMessages {
  import opened Prelude

  /** A session id. TCP sessions use random (version 4) UUIDs, UDP sessions use hashed (version 5) UUIDs;
      the version bits differ, so the two families never meet. Random ids are numbered in order of creation. */
  datatype Sid = V4(index: nat) | V5(hash: nat)

  /** `Create` travels to the node and `Reply` comes back; on the wire both are PROXY_SESSION_CREATE. */
  datatype Msg =
    | Create(sid: Sid)
    | Reply(sid: Sid, ok: bool)
    | Data(sid: Sid, payload: Bytes)
    | Close(sid: Sid)
    | UdpData(sid: Sid, payload: Bytes)

  /** The messages of a queue that belong to one session, in order. */
  function OfSession(q: seq<Msg>, sid: Sid): (r: seq<Msg>)
    ensures forall m <- r :: m in q && m.sid == sid
  {
    if q == [] then [] else (if q[0].sid == sid then [q[0]] else []) + OfSession(q[1..], sid)
  }

  lemma {:induction false} OfSessionAppend(a: seq<Msg>, b: seq<Msg>, sid: Sid)
    ensures OfSession(a + b, sid) == OfSession(a, sid) + OfSession(b, sid)
  {
    if a == [] {
      assert a + b == b;
    } else {
      assert (a + b)[1..] == a[1..] + b;
      OfSessionAppend(a[1..], b, sid);
    }
  }

  lemma OfSessionSnoc(q: seq<Msg>, m: Msg, sid: Sid)
    ensures OfSession(q + [m], sid) == OfSession(q, sid) + (if m.sid == sid then [m] else [])
  {
    OfSessionAppend(q, [m], sid);
    assert OfSession([m], sid) == (if m.sid == sid then [m] else []) + OfSession([], sid);
  }

  lemma OfSessionTake(q: seq<Msg>, keep: nat, sid: Sid)
    requires keep <= |q|
    ensures OfSession(q[..keep], sid) <= OfSession(q, sid)
  {
    assert q == q[..keep] + q[keep..];
    OfSessionAppend(q[..keep], q[keep..], sid);
  }

  lemma {:induction false} OfSessionNone(q: seq<Msg>, sid: Sid)
    requires forall m <- q :: m.sid != sid
    ensures OfSession(q, sid) == []
  {
    if q != [] {
      OfSessionNone(q[1..], sid);
    }
  }

  /** The DATA payloads of a queue, in order. */
  function Payloads(q: seq<Msg>): seq<Bytes> {
    if q == [] then [] else (if q[0].Data? then [q[0].payload] else []) + Payloads(q[1..])
  }

  lemma {:induction false} PayloadsAppend(a: seq<Msg>, b: seq<Msg>)
    ensures Payloads(a + b) == Payloads(a) + Payloads(b)
  {
    if a == [] {
      assert a + b == b;
    } else {
      assert (a + b)[1..] == a[1..] + b;
      PayloadsAppend(a[1..], b);
    }
  }

  lemma PayloadsSnoc(q: seq<Msg>, m: Msg)
    ensures Payloads(q + [m]) == Payloads(q) + (if m.Data? then [m.payload] else [])
  {
    PayloadsAppend(q, [m]);
    assert Payloads([m]) == (if m.Data? then [m.payload] else []) + Payloads([]);
  }

  lemma PayloadsPrefix(p: seq<Msg>, q: seq<Msg>)
    requires p <= q
    ensures Payloads(p) <= Payloads(q)
  {
    assert q == p + q[|p|..];
    PayloadsAppend(p, q[|p|..]);
  }

  /** The TCP connection at one end of a session: still open here, half-closed by the peer, failed for writing,
      closed on request of the other end of the tunnel, and the bytes written to it so far. */
  datatype Conn = Conn(open: bool, eof: bool, broken: bool, closeFlag: bool, written: Bytes)

  const NEW_CONN := Conn(true, false, false, false, [])

  /** A write of `data` that manages only `n` bytes leaves the connection unusable for writing. */
  function WriteConn(c: Conn, data: Bytes, n: nat): Conn {
    if !c.open || c.broken then c
    else if n < |data| then c.(written := c.written + data[..n], broken := true)
    else c.(written := c.written + data)
  }

  /** The close method that the message handlers use. */
  function CloseConn(c: Conn): Conn { c.(closeFlag := true, open := false) }

  /** The pump's next read fails without waiting for new bytes. */
  predicate Ended(c: Conn) { !c.open || c.eof }
}
