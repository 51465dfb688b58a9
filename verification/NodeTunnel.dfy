/** The node's end of a tunnel: one goroutine per CREATE (`createProxySession`) and one goroutine that handles the
    messages arriving from the server (`Serve`). */
module NodeTunnel {
  import opened Prelude
  import opened TunnelMessages

  datatype NodePc =
    | Spawned      // CREATE received, session map not yet consulted
    | Dialing
    | Failed       // dial failed and said so
    | Connected    // session stored, success not yet announced
    | Pumping      // copying the destination's bytes into the tunnel
    | Leaving      // read failed; the connection is not yet closed
    | Closed       // connection closed, session not yet deleted
    | Gone

  predicate InMap(pc: NodePc) { pc.Connected? || pc.Pumping? || pc.Leaving? || pc.Closed? }

  predicate Announced(pc: NodePc) { pc.Pumping? || pc.Leaving? || pc.Closed? || pc.Gone? }

  /** `chunks` and `sent` are histories: chunks read from the destination and DATA payloads handed to the tunnel.
      `handled` counts the session's DATA messages handled so far; `told` says that the goroutine has written CLOSE. */
  datatype NodeSession = NodeSession(
    pc: NodePc, conn: Conn, hand: Bytes, chunks: seq<Bytes>, sent: seq<Bytes>, handled: nat, told: bool)

  const NEW_SESSION := NodeSession(Spawned, NEW_CONN, [], [], [], 0, false)

  /** What one atomic step of a session does: the session afterwards, the message it writes to the tunnel, and its
      entry in `proxySessions` afterwards. */
  datatype Effect = Effect(x: NodeSession, emit: Option<Msg>, mapped: bool)

  predicate CanRun(x: NodeSession) {
    match x.pc
    case Failed => false
    case Gone => false
    case Pumping => x.hand != [] || Ended(x.conn)
    case _ => true
  }

  /** The goroutine's next step; `dialed` is the outcome of a dial. */
  function Run(x: NodeSession, sid: Sid, dialed: bool, mapped: bool): Effect {
    match x.pc
    case Spawned =>
      if mapped then Effect(x.(pc := Gone), Some(Reply(sid, true)), mapped)
      else Effect(x.(pc := Dialing), None, mapped)
    case Dialing =>
      if dialed then Effect(x.(pc := Connected), None, true)
      else Effect(x.(pc := Failed), Some(Reply(sid, false)), mapped)
    case Connected => Effect(x.(pc := Pumping), Some(Reply(sid, true)), mapped)
    case Pumping =>
      if x.hand != [] then Effect(x.(hand := [], sent := x.sent + [x.hand]), Some(Data(sid, x.hand)), mapped)
      else if x.conn.closeFlag then Effect(x.(pc := Leaving), None, mapped)
      else Effect(x.(pc := Leaving, told := true), Some(Close(sid)), mapped)
    case Leaving => Effect(x.(pc := Closed, conn := x.conn.(open := false)), None, mapped)
    case Closed => Effect(x.(pc := Gone), None, false)
    case _ => Effect(x, None, mapped)
  }

  predicate CanRead(x: NodeSession, chunk: Bytes) {
    x.pc.Pumping? && x.hand == [] && !Ended(x.conn) && 0 < |chunk| <= 4096
  }

  function ReadDest(x: NodeSession, chunk: Bytes): NodeSession {
    x.(hand := chunk, chunks := x.chunks + [chunk])
  }

  /** DATA for a session that is not in the map is dropped. */
  function OnData(x: NodeSession, data: Bytes, k: nat, mapped: bool): Effect {
    Effect(x.(handled := x.handled + 1, conn := if mapped then WriteConn(x.conn, data, k) else x.conn), None, mapped)
  }

  function OnClose(x: NodeSession, mapped: bool): Effect {
    Effect(if mapped then x.(conn := CloseConn(x.conn)) else x, None, mapped)
  }

  /** Handles one message from the server; `k` is how many bytes a write to the destination manages. */
  function Handle(x: NodeSession, m: Msg, k: nat, mapped: bool): Effect {
    match m
    case Data(_, data) => OnData(x, data, k, mapped)
    case Close(_) => OnClose(x, mapped)
    case _ => Effect(x, None, mapped)
  }

  datatype Node = Node(sess: map<nat, NodeSession>, sessions: set<Sid>, udps: set<Sid>, out: seq<Msg>, up: bool)

  function Write(n: Node, m: Option<Msg>): seq<Msg> {
    if m.Some? && n.up then n.out + [m.value] else n.out
  }

  function Commit(n: Node, i: nat, e: Effect): Node {
    Node(n.sess[i := e.x], if e.mapped then n.sessions + {V4(i)} else n.sessions - {V4(i)},
         n.udps, Write(n, e.emit), n.up)
  }

  function Step(n: Node, i: nat, dialed: bool): Node
    requires i in n.sess
  {
    Commit(n, i, Run(n.sess[i], V4(i), dialed, V4(i) in n.sessions))
  }

  predicate Known(n: Node, sid: Sid) { sid.V4? && sid.index in n.sess }

  /** The handler of the receiving goroutine. A CREATE starts a goroutine for its session;
      `SessionTheorems.CreateArrivesOnce` shows that it is always the session's first. */
  function OnMessage(n: Node, m: Msg, k: nat): Node {
    if m.UdpData? then n.(udps := n.udps + {m.sid})
    else if Known(n, m.sid) then Commit(n, m.sid.index, Handle(n.sess[m.sid.index], m, k, m.sid in n.sessions))
    else if m.Create? && m.sid.V4? then n.(sess := n.sess[m.sid.index := NEW_SESSION])
    else n
  }

  /** A datagram from a UDP destination; only an open UDP session forwards one. */
  function SendUdp(n: Node, hash: nat, payload: Bytes): Node {
    if V5(hash) in n.udps then n.(out := Write(n, Some(UdpData(V5(hash), payload)))) else n
  }

  function ExpireUdp(n: Node, hash: nat): Node { n.(udps := n.udps - {V5(hash)}) }
}
