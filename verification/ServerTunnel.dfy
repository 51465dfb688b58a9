/** The pop server's end of a tunnel: one goroutine per user connection (`acceptSocks5TCPConn`) and one
    goroutine that handles the messages arriving from the node (`serve`). */
module ServerTunnel {
  import opened Prelude
  import opened TunnelMessages

  /** Where the goroutine of one user connection stands. */
  datatype ServerPc =
    | WriteCreate        // wait list entry stored, CREATE not yet written
    | EnterSelect        // CREATE written, not yet receiving on the reply channel
    | Select             // receiving on the reply channel
    | Replied(ok: bool)  // reply taken, wait list entry not yet deleted
    | Aborted            // write failed or timed out, wait list entry not yet deleted
    | Refused            // returned an error
    | WriteExtra         // session created, bytes left over from the handshake not yet sent
    | StoreSession       // about to store the session in `proxys`
    | Pump               // copying the user's bytes into the tunnel
    | Leaving            // read failed, session not yet deleted from `proxys`
    | Done

  predicate Waiting(pc: ServerPc) {
    pc.WriteCreate? || pc.EnterSelect? || pc.Select? || pc.Replied? || pc.Aborted?
  }

  predicate Unestablished(pc: ServerPc) { Waiting(pc) || pc.Refused? }

  predicate Stored(pc: ServerPc) { pc.Pump? || pc.Leaving? }

  predicate BeforeStore(pc: ServerPc) { !Stored(pc) && !pc.Done? }

  /** DATA messages of the session handled so far, those of them handled before the session was stored, those handled
      while it was not stored, before or after, CLOSE messages handled before it was stored, and replies handled. */
  datatype Seen = Seen(handled: nat, skipped: nat, stray: nat, closes: nat, replies: nat)

  /** Messages that came before the session was stored. */
  function Early(seen: Seen): nat { seen.skipped + seen.closes }

  /** `read` and `sent` are histories: bytes read from the user and DATA payloads handed to the tunnel. */
  datatype ServerSession = ServerSession(
    pc: ServerPc, extra: Bytes, conn: Conn, hand: Bytes, read: Bytes, sent: seq<Bytes>, seen: Seen)

  function NewSession(extra: Bytes): ServerSession {
    ServerSession(WriteCreate, extra, NEW_CONN, [], [], [], Seen(0, 0, 0, 0, 0))
  }

  /** What one atomic step of a session does: the session afterwards, the message it writes to the tunnel, and its
      entries in `waitList` and `proxys` afterwards. */
  datatype Effect = Effect(x: ServerSession, emit: Option<Msg>, waiting: bool, stored: bool)

  /** The goroutine can take a step without waiting for new bytes from the user. */
  predicate CanRun(x: ServerSession) {
    match x.pc
    case Refused => false
    case Done => false
    case Pump => x.hand != [] || Ended(x.conn)
    case _ => true
  }

  /** The goroutine's next step. In `Select` this is the timer firing: a reply is taken by `OnReply`. */
  function Run(x: ServerSession, sid: Sid, up: bool, waiting: bool, stored: bool): Effect {
    match x.pc
    case WriteCreate =>
      if up then Effect(x.(pc := EnterSelect), Some(Create(sid)), waiting, stored)
      else Effect(x.(pc := Aborted), None, waiting, stored)
    case EnterSelect => Effect(x.(pc := Select), None, waiting, stored)
    case Select => Effect(x.(pc := Aborted), None, waiting, stored)
    case Replied(ok) => Effect(x.(pc := if ok then WriteExtra else Refused), None, false, stored)
    case Aborted => Effect(x.(pc := Refused), None, false, stored)
    case WriteExtra =>
      if x.extra == [] then Effect(x.(pc := StoreSession), None, waiting, stored)
      else Effect(x.(pc := StoreSession, sent := x.sent + [x.extra]), Some(Data(sid, x.extra)), waiting, stored)
    case StoreSession => Effect(x.(pc := Pump), None, waiting, true)
    case Pump =>
      if x.hand != [] then
        Effect(x.(hand := [], sent := x.sent + [x.hand]), Some(Data(sid, x.hand)), waiting, stored)
      else if x.conn.closeFlag || !stored then Effect(x.(pc := Leaving), None, waiting, stored)
      else Effect(x.(pc := Leaving, conn := CloseConn(x.conn)), None, waiting, stored)
    case Leaving => Effect(x.(pc := Done, conn := x.conn.(open := false)), None, waiting, false)
    case _ => Effect(x, None, waiting, stored)
  }

  predicate CanRead(x: ServerSession, chunk: Bytes) {
    x.pc.Pump? && x.hand == [] && !Ended(x.conn) && 0 < |chunk| <= 4096
  }

  function ReadUser(x: ServerSession, chunk: Bytes): ServerSession {
    x.(hand := chunk, read := x.read + chunk)
  }

  /** A reply is taken only by a goroutine that is receiving; otherwise the non-blocking send drops it. */
  function OnReply(x: ServerSession, ok: bool, waiting: bool, stored: bool): Effect {
    var y := x.(seen := x.seen.(replies := x.seen.replies + 1));
    Effect(if waiting && x.pc.Select? then y.(pc := Replied(ok)) else y, None, waiting, stored)
  }

  /** DATA for a stored session is written to the user; otherwise the answer is CLOSE. */
  function OnData(x: ServerSession, sid: Sid, data: Bytes, n: nat, waiting: bool, stored: bool): Effect {
    if stored then
      Effect(x.(conn := WriteConn(x.conn, data, n), seen := x.seen.(handled := x.seen.handled + 1)),
             None, waiting, stored)
    else Effect(x.(seen := SeenUnstored(x)), Some(Close(sid)), waiting, stored)
  }

  /** A DATA message that finds no session counts as skipped when the session is yet to be stored. */
  function SeenUnstored(x: ServerSession): Seen {
    Seen(x.seen.handled + 1, if BeforeStore(x.pc) then x.seen.skipped + 1 else x.seen.skipped, x.seen.stray + 1,
         x.seen.closes, x.seen.replies)
  }

  function OnClose(x: ServerSession, waiting: bool, stored: bool): Effect {
    if stored then Effect(x.(conn := CloseConn(x.conn)), None, waiting, stored)
    else if BeforeStore(x.pc) then Effect(x.(seen := x.seen.(closes := x.seen.closes + 1)), None, waiting, stored)
    else Effect(x, None, waiting, stored)
  }

  /** Handles one message from the node; `n` is how many bytes a write to the user manages. */
  function Handle(x: ServerSession, m: Msg, n: nat, waiting: bool, stored: bool): Effect {
    match m
    case Reply(_, ok) => OnReply(x, ok, waiting, stored)
    case Data(sid, data) => OnData(x, sid, data, n, waiting, stored)
    case Close(_) => OnClose(x, waiting, stored)
    case _ => Effect(x, None, waiting, stored)
  }

  datatype Kind = Tcp | Udp

  datatype Server = Server(
    sess: seq<ServerSession>, waitList: set<Sid>, proxys: map<Sid, Kind>,
    out: seq<Msg>, up: bool, panicked: bool)

  predicate Known(s: Server, sid: Sid) { sid.V4? && sid.index < |s.sess| }

  /** A websocket write: after the first failure every later write fails too. */
  function Write(s: Server, m: Option<Msg>): seq<Msg> {
    if m.Some? && s.up then s.out + [m.value] else s.out
  }

  function Commit(s: Server, i: nat, e: Effect): Server
    requires i < |s.sess|
  {
    Server(s.sess[i := e.x],
           if e.waiting then s.waitList + {V4(i)} else s.waitList - {V4(i)},
           if !e.stored then s.proxys - {V4(i)} else if V4(i) in s.proxys then s.proxys else s.proxys[V4(i) := Tcp],
           Write(s, e.emit), s.up, s.panicked)
  }

  function Step(s: Server, i: nat): Server
    requires i < |s.sess|
  {
    Commit(s, i, Run(s.sess[i], V4(i), s.up, V4(i) in s.waitList, V4(i) in s.proxys))
  }

  function Accept(s: Server, extra: Bytes): Server {
    s.(sess := s.sess + [NewSession(extra)], waitList := s.waitList + {V4(|s.sess|)})
  }

  /** The entry found in `proxys` is not of the kind the handler casts it to. */
  predicate WrongKind(s: Server, m: Msg) {
    m.sid in s.proxys && (((m.Data? || m.Close?) && s.proxys[m.sid].Udp?) || (m.UdpData? && s.proxys[m.sid].Tcp?))
  }

  /** The handler of the receiving goroutine. */
  function OnMessage(s: Server, m: Msg, n: nat): Server {
    if WrongKind(s, m) then s.(panicked := true)
    else if Known(s, m.sid) then
      Commit(s, m.sid.index, Handle(s.sess[m.sid.index], m, n, m.sid in s.waitList, m.sid in s.proxys))
    else if m.Data? && m.sid !in s.proxys then s.(out := Write(s, Some(Close(m.sid))))
    else s
  }

  /** A UDP datagram from a user: opens the UDP session on first use and forwards the payload. */
  function SendUdp(s: Server, hash: nat, payload: Bytes): Server {
    var sid := V5(hash);
    if sid in s.proxys && s.proxys[sid].Tcp? then s.(panicked := true)
    else s.(proxys := s.proxys[sid := Udp], out := Write(s, Some(UdpData(sid, payload))))
  }

  function ExpireUdp(s: Server, hash: nat): Server { s.(proxys := s.proxys - {V5(hash)}) }
}
