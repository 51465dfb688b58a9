/** The server and the node of one tunnel, running against each other over two FIFO queues. */
module SessionProtocol {
  import opened Prelude
  import opened TunnelMessages
  import S = ServerTunnel
  import N = NodeTunnel

  datatype Tunnel = Tunnel(srv: S.Server, node: N.Node)

  const START := Tunnel(S.Server([], {}, map[], [], true, false), N.Node(map[], {}, {}, [], true))

  /** What the surroundings do to the tunnel, and (the last four) what the two programs do by themselves. */
  datatype Action =
    | Accept(extra: Bytes)
    | UserBytes(i: nat, chunk: Bytes)
    | UserHangUp(i: nat)
    | DestBytes(i: nat, chunk: Bytes)
    | DestHangUp(i: nat)
    | UserDatagram(hash: nat, payload: Bytes)
    | DestDatagram(hash: nat, payload: Bytes)
    | ExpireServerUdp(hash: nat)
    | ExpireNodeUdp(hash: nat)
    | BreakToNode(keep: nat)     // the websocket fails towards the node; only `keep` queued messages still arrive
    | BreakToServer(keep: nat)
    | ServerStep(i: nat)
    | NodeStep(i: nat, dialed: bool)
    | DeliverToNode(k: nat)      // `k`: how many bytes the destination takes, if the message is DATA
    | DeliverToServer(k: nat)

  predicate Internal(a: Action) {
    a.ServerStep? || a.NodeStep? || a.DeliverToNode? || a.DeliverToServer?
  }

  predicate Enabled(t: Tunnel, a: Action) {
    match a
    case UserBytes(i, chunk) => i < |t.srv.sess| && S.CanRead(t.srv.sess[i], chunk)
    case UserHangUp(i) => i < |t.srv.sess|
    case DestBytes(i, chunk) => i in t.node.sess && N.CanRead(t.node.sess[i], chunk)
    case DestHangUp(i) => i in t.node.sess
    case BreakToNode(keep) => keep <= |t.srv.out|
    case BreakToServer(keep) => keep <= |t.node.out|
    case ServerStep(i) => i < |t.srv.sess| && S.CanRun(t.srv.sess[i])
    case NodeStep(i, _) => i in t.node.sess && N.CanRun(t.node.sess[i])
    case DeliverToNode(_) => t.srv.out != []
    case DeliverToServer(_) => t.node.out != []
    case _ => true
  }

  function Apply(t: Tunnel, a: Action): Tunnel
    requires Enabled(t, a)
  {
    var srv, node := t.srv, t.node;
    match a
    case Accept(extra) => t.(srv := S.Accept(srv, extra))
    case UserBytes(i, chunk) => t.(srv := srv.(sess := srv.sess[i := S.ReadUser(srv.sess[i], chunk)]))
    case UserHangUp(i) => t.(srv := srv.(sess := srv.sess[i := srv.sess[i].(conn := srv.sess[i].conn.(eof := true))]))
    case DestBytes(i, chunk) => t.(node := node.(sess := node.sess[i := N.ReadDest(node.sess[i], chunk)]))
    case DestHangUp(i) =>
      t.(node := node.(sess := node.sess[i := node.sess[i].(conn := node.sess[i].conn.(eof := true))]))
    case UserDatagram(hash, payload) => t.(srv := S.SendUdp(srv, hash, payload))
    case DestDatagram(hash, payload) => t.(node := N.SendUdp(node, hash, payload))
    case ExpireServerUdp(hash) => t.(srv := S.ExpireUdp(srv, hash))
    case ExpireNodeUdp(hash) => t.(node := N.ExpireUdp(node, hash))
    case BreakToNode(keep) => t.(srv := srv.(out := srv.out[..keep], up := false))
    case BreakToServer(keep) => t.(node := node.(out := node.out[..keep], up := false))
    case ServerStep(i) => t.(srv := S.Step(srv, i))
    case NodeStep(i, dialed) => t.(node := N.Step(node, i, dialed))
    case DeliverToNode(k) => Tunnel(srv.(out := srv.out[1..]), N.OnMessage(node, srv.out[0], k))
    case DeliverToServer(k) => Tunnel(S.OnMessage(srv, node.out[0], k), node.(out := node.out[1..]))
  }

  predicate ValidRun(t: Tunnel, run: seq<Action>)
    decreases |run|
  {
    run == [] || (Enabled(t, run[0]) && ValidRun(Apply(t, run[0]), run[1..]))
  }

  function After(t: Tunnel, run: seq<Action>): Tunnel
    requires ValidRun(t, run)
    decreases |run|
  {
    if run == [] then t else After(Apply(t, run[0]), run[1..])
  }

  /** Everything in the tunnel's state that concerns one TCP session, its share of the two queues included. */
  datatype View = View(
    upS: bool, upN: bool, s: S.ServerSession, n: Option<N.NodeSession>, toNode: seq<Msg>, toServer: seq<Msg>,
    waiting: bool, stored: bool, mapped: bool)

  function ViewOf(t: Tunnel, i: nat): View
    requires i < |t.srv.sess|
  {
    View(t.srv.up, t.node.up, t.srv.sess[i], if i in t.node.sess then Some(t.node.sess[i]) else None,
         OfSession(t.srv.out, V4(i)), OfSession(t.node.out, V4(i)),
         V4(i) in t.srv.waitList, V4(i) in t.srv.proxys, V4(i) in t.node.sessions)
  }

  /** Bookkeeping: the maps agree with the goroutines, and a session passes CREATE, store, reply in this order. */
  predicate Agreement(v: View) {
    && (v.waiting <==> S.Waiting(v.s.pc))
    && (v.stored <==> S.Stored(v.s.pc))
    && (v.mapped <==> v.n.Some? && N.InMap(v.n.value.pc))
    && (v.s.pc.WriteCreate? ==> v.n.None? && v.toNode == [])
    && (v.n.None? ==> v.toServer == [] && (v.toNode == [] || (|v.toNode| == 1 && v.toNode[0].Create?)))
    && (v.n.Some? ==> forall m <- v.toNode :: !m.Create?)
    && (forall m <- v.toServer :: m.Reply? && m.ok ==> v.n.Some? && N.Announced(v.n.value.pc))
    && (!S.Unestablished(v.s.pc) || v.s.pc == S.Replied(true) ==> v.n.Some? && N.Announced(v.n.value.pc))
    && (v.n.Some? && !N.Announced(v.n.value.pc) ==> v.n.value.hand == [] && v.n.value.sent == [])
    && (v.n.Some? && v.n.value.hand != [] ==> v.n.value.pc.Pumping?)
  }

  predicate Silent(pc: S.ServerPc) { S.Unestablished(pc) || pc.WriteExtra? }

  /** Every byte read from the user, after the bytes left over from the handshake, was sent on or is in hand. */
  predicate UserAccount(s: S.ServerSession) {
    && (s.hand != [] ==> s.pc.Pump?)
    && (Silent(s.pc) ==> s.sent == [] && s.read == [] && s.hand == [])
    && (!Silent(s.pc) ==> Concat(s.sent) + s.hand == s.extra + s.read)
  }

  /** Every chunk read from the destination was sent on or is in hand. */
  predicate DestAccount(n: N.NodeSession) {
    n.chunks == n.sent + (if n.hand == [] then [] else [n.hand])
  }

  /** One direction of a session: the chunks sent so far, those still queued, how many were handled at the far end,
      how many of these were skipped, the bytes written there, and whether writing there still works. */
  datatype Pipe = Pipe(
    up: bool, sent: seq<Bytes>, queued: seq<Bytes>, handled: nat, skipped: nat, written: Bytes, works: bool)

  predicate PipeInv(p: Pipe) {
    && p.skipped <= p.handled <= |p.sent|
    && p.queued <= p.sent[p.handled..]
    && (p.up ==> p.queued == p.sent[p.handled..])
    && p.written <= Concat(p.sent[p.skipped..p.handled])
    && (p.works ==> p.written == Concat(p.sent[p.skipped..p.handled]))
  }

  predicate NodeWrites(x: N.NodeSession) { x.conn.open && !x.conn.broken && !x.pc.Gone? }

  predicate ServerWrites(x: S.ServerSession) {
    S.BeforeStore(x.pc) || (S.Stored(x.pc) && x.conn.open && !x.conn.broken)
  }

  function UpPipe(v: View): Pipe {
    match v.n
    case None => Pipe(v.upS, v.s.sent, Payloads(v.toNode), 0, 0, [], true)
    case Some(n) => Pipe(v.upS, v.s.sent, Payloads(v.toNode), n.handled, 0, n.conn.written, NodeWrites(n))
  }

  function DownPipe(v: View): Pipe {
    Pipe(v.upN, if v.n.Some? then v.n.value.sent else [], Payloads(v.toServer),
         v.s.seen.handled, v.s.seen.skipped, v.s.conn.written, ServerWrites(v.s))
  }

  predicate SessInv(v: View) {
    && Agreement(v)
    && UserAccount(v.s)
    && (v.n.Some? ==> DestAccount(v.n.value))
    && (S.BeforeStore(v.s.pc) ==> v.s.conn.written == [] && v.s.seen.skipped == v.s.seen.handled)
    && PipeInv(UpPipe(v))
    && PipeInv(DownPipe(v))
  }

  // ---------------------------------------------------------------- pipes

  function PipeSend(p: Pipe, c: Bytes): Pipe {
    p.(sent := p.sent + [c], queued := if p.up then p.queued + [c] else p.queued)
  }

  lemma SendKeepsPipe(p: Pipe, c: Bytes)
    requires PipeInv(p)
    ensures PipeInv(PipeSend(p, c))
  {
    assert (p.sent + [c])[p.handled..] == p.sent[p.handled..] + [c];
    assert (p.sent + [c])[p.skipped..p.handled] == p.sent[p.skipped..p.handled];
  }

  /** The far end takes the oldest queued chunk and writes the first `k` bytes of it. */
  lemma HandleKeepsPipe(p: Pipe, q: Pipe, k: nat)
    requires PipeInv(p) && p.queued != []
    requires q == p.(queued := p.queued[1..], handled := p.handled + 1, written := q.written, works := q.works)
    requires q.written == p.written || (p.works && k <= |p.queued[0]| && q.written == p.written + p.queued[0][..k])
    requires q.works ==> p.works && q.written == p.written + p.queued[0]
    ensures PipeInv(q)
  {
    var c := p.queued[0];
    assert p.sent[p.handled..][0] == c;
    assert p.sent[p.handled..][1..] == p.sent[q.handled..];
    ConcatOne(p.sent, p.skipped, p.handled);
  }

  lemma SkipKeepsPipe(p: Pipe)
    requires PipeInv(p) && p.queued != [] && p.skipped == p.handled && p.written == []
    ensures PipeInv(p.(queued := p.queued[1..], handled := p.handled + 1, skipped := p.skipped + 1))
  {
    assert p.sent[p.handled..][0] == p.queued[0];
    assert p.sent[p.handled..][1..] == p.sent[p.handled + 1..];
  }

  lemma CutKeepsPipe(p: Pipe, queued: seq<Bytes>, works: bool)
    requires PipeInv(p) && queued <= p.queued && (works ==> p.works)
    ensures PipeInv(p.(up := false, queued := queued, works := works))
  {
  }
}
