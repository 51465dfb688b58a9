/** Every step of the two programs keeps the invariant of one session. */
module SessionSteps {
  import opened Prelude
  import opened TunnelMessages
  import opened SessionProtocol
  import S = ServerTunnel
  import N = NodeTunnel

  function Queue(q: seq<Msg>, up: bool, m: Option<Msg>): seq<Msg> {
    if m.Some? && up then q + [m.value] else q
  }

  /** The session's view after an effect of its server end. */
  function ServerEffect(v: View, e: S.Effect): View {
    v.(s := e.x, toNode := Queue(v.toNode, v.upS, e.emit), waiting := e.waiting, stored := e.stored)
  }

  function NodeEffect(v: View, e: N.Effect): View {
    v.(n := Some(e.x), toServer := Queue(v.toServer, v.upN, e.emit), mapped := e.mapped)
  }

  lemma QueuePayloads(q: seq<Msg>, up: bool, m: Option<Msg>)
    ensures Payloads(Queue(q, up, m)) ==
            Payloads(q) + (if up && m.Some? && m.value.Data? then [m.value.payload] else [])
  {
    if m.Some? {
      PayloadsSnoc(q, m.value);
    }
  }

  // ---------------------------------------------------------------- the server goroutine

  function ServerRun(v: View, sid: Sid): View { ServerEffect(v, S.Run(v.s, sid, v.upS, v.waiting, v.stored)) }

  /** The chunk that the next step of the server goroutine sends. */
  function Sends(x: S.ServerSession): Option<Bytes> {
    if x.pc.WriteExtra? && x.extra != [] then Some(x.extra)
    else if x.pc.Pump? && x.hand != [] then Some(x.hand)
    else None
  }

  lemma ServerRunAgreement(v: View, sid: Sid)
    requires Agreement(v) && S.CanRun(v.s)
    ensures Agreement(ServerRun(v, sid))
  {
  }

  /** A step of the server goroutine either sends one chunk, its extra bytes or the chunk in hand, or moves no data. */
  lemma ServerRunData(x: S.ServerSession, sid: Sid, up: bool, waiting: bool, stored: bool)
    requires S.CanRun(x) && (x.hand != [] ==> x.pc.Pump?)
    ensures var e := S.Run(x, sid, up, waiting, stored); var c := Sends(x);
            && e.x.extra == x.extra && e.x.read == x.read
            && (Silent(e.x.pc) ==> Silent(x.pc))
            && (c.Some? ==> e.x.sent == x.sent + [c.value] && e.emit == Some(Data(sid, c.value)) && !Silent(e.x.pc))
            && (c.None? ==> e.x.sent == x.sent && e.x.hand == x.hand && (e.emit.Some? ==> !e.emit.value.Data?))
            && (c.None? && Silent(x.pc) && !Silent(e.x.pc) ==> x.extra == [])
            && (c.Some? || x.hand != [] ==> e.x.hand == [])
  {
  }

  lemma ServerRunAccount(x: S.ServerSession, y: S.ServerSession)
    requires UserAccount(x) && y.extra == x.extra && y.read == x.read
    requires var c := Sends(x);
             if c.Some? then y.sent == x.sent + [c.value] && y.hand == [] && !Silent(y.pc)
             else y.sent == x.sent && y.hand == x.hand == []
    requires Silent(y.pc) ==> Silent(x.pc)
    requires Sends(x).None? && Silent(x.pc) && !Silent(y.pc) ==> x.extra == []
    ensures UserAccount(y)
  {
    if Sends(x).Some? {
      ConcatSnoc(x.sent, Sends(x).value);
    }
  }

  lemma ServerRunUpPipe(v: View, sid: Sid)
    requires S.CanRun(v.s) && (v.s.hand != [] ==> v.s.pc.Pump?)
    ensures var c := Sends(v.s);
            UpPipe(ServerRun(v, sid)) == (if c.Some? then PipeSend(UpPipe(v), c.value) else UpPipe(v))
  {
    ServerRunData(v.s, sid, v.upS, v.waiting, v.stored);
    QueuePayloads(v.toNode, v.upS, S.Run(v.s, sid, v.upS, v.waiting, v.stored).emit);
  }

  lemma ServerRunDownPipe(v: View, sid: Sid)
    requires S.CanRun(v.s)
    ensures var w := ServerRun(v, sid);
            && DownPipe(w) == DownPipe(v).(works := DownPipe(w).works)
            && (DownPipe(w).works ==> DownPipe(v).works)
            && (S.BeforeStore(w.s.pc) ==> S.BeforeStore(v.s.pc) && w.s.conn == v.s.conn && w.s.seen == v.s.seen)
  {
  }

  lemma ServerRunKeeps(v: View, sid: Sid)
    requires SessInv(v) && S.CanRun(v.s)
    ensures SessInv(ServerRun(v, sid))
  {
    var w := ServerRun(v, sid);
    ServerRunAgreement(v, sid);
    ServerRunData(v.s, sid, v.upS, v.waiting, v.stored);
    ServerRunAccount(v.s, w.s);
    ServerRunUpPipe(v, sid);
    ServerRunDownPipe(v, sid);
    if Sends(v.s).Some? {
      SendKeepsPipe(UpPipe(v), Sends(v.s).value);
    }
  }

  // ---------------------------------------------------------------- the node goroutine

  function NodeRun(v: View, sid: Sid, dialed: bool): View
    requires v.n.Some?
  {
    NodeEffect(v, N.Run(v.n.value, sid, dialed, v.mapped))
  }

  lemma NodeRunAgreement(v: View, sid: Sid, dialed: bool)
    requires Agreement(v) && v.n.Some? && N.CanRun(v.n.value)
    ensures Agreement(NodeRun(v, sid, dialed))
  {
  }

  lemma NodeRunData(x: N.NodeSession, sid: Sid, dialed: bool, mapped: bool)
    requires N.CanRun(x) && (x.hand != [] ==> x.pc.Pumping?)
    ensures var e := N.Run(x, sid, dialed, mapped);
            && e.x.chunks == x.chunks && e.x.hand == []
            && (x.hand != [] ==> e.x.sent == x.sent + [x.hand] && e.emit == Some(Data(sid, x.hand)))
            && (x.hand == [] ==> e.x.sent == x.sent && (e.emit.Some? ==> !e.emit.value.Data?))
            && e.x.handled == x.handled && e.x.conn.written == x.conn.written
            && (NodeWrites(e.x) ==> NodeWrites(x))
  {
  }

  lemma NodeRunDownPipe(v: View, sid: Sid, dialed: bool)
    requires v.n.Some? && N.CanRun(v.n.value) && (v.n.value.hand != [] ==> v.n.value.pc.Pumping?)
    ensures var x := v.n.value;
            DownPipe(NodeRun(v, sid, dialed)) == (if x.hand != [] then PipeSend(DownPipe(v), x.hand) else DownPipe(v))
  {
    NodeRunData(v.n.value, sid, dialed, v.mapped);
    QueuePayloads(v.toServer, v.upN, N.Run(v.n.value, sid, dialed, v.mapped).emit);
  }

  lemma NodeRunUpPipe(v: View, sid: Sid, dialed: bool)
    requires v.n.Some? && N.CanRun(v.n.value) && (v.n.value.hand != [] ==> v.n.value.pc.Pumping?)
    ensures var p, q := UpPipe(v), UpPipe(NodeRun(v, sid, dialed));
            q == p.(works := q.works) && (q.works ==> p.works)
  {
    NodeRunData(v.n.value, sid, dialed, v.mapped);
  }

  lemma NodeRunKeeps(v: View, sid: Sid, dialed: bool)
    requires SessInv(v) && v.n.Some? && N.CanRun(v.n.value)
    ensures SessInv(NodeRun(v, sid, dialed))
  {
    NodeRunAgreement(v, sid, dialed);
    NodeRunData(v.n.value, sid, dialed, v.mapped);
    NodeRunDownPipe(v, sid, dialed);
    NodeRunUpPipe(v, sid, dialed);
    if v.n.value.hand != [] {
      SendKeepsPipe(DownPipe(v), v.n.value.hand);
    }
  }

  // ---------------------------------------------------------------- messages reaching the server

  /** The oldest message for the session is handled by the server; `n` bytes of it reach the user. */
  function ServerTake(v: View, n: nat): View
    requires v.toServer != []
  {
    ServerEffect(v.(toServer := v.toServer[1..]), S.Handle(v.s, v.toServer[0], n, v.waiting, v.stored))
  }

  lemma ServerTakeAgreement(v: View, n: nat)
    requires Agreement(v) && v.toServer != []
    ensures Agreement(ServerTake(v, n))
  {
    var w := ServerTake(v, n);
    assert v.toServer[0] in v.toServer;
    assert forall m <- w.toServer :: m in v.toServer;
  }

  lemma PayloadsHead(q: seq<Msg>)
    requires q != []
    ensures Payloads(q) == (if q[0].Data? then [q[0].payload] else []) + Payloads(q[1..])
  {
  }

  lemma ServerTakeUpPipe(v: View, n: nat)
    requires v.toServer != []
    ensures UpPipe(ServerTake(v, n)) == UpPipe(v)
  {
    var e := S.Handle(v.s, v.toServer[0], n, v.waiting, v.stored);
    assert e.emit.Some? ==> !e.emit.value.Data?;
    assert e.x.sent == v.s.sent;
    QueuePayloads(v.toNode, v.upS, e.emit);
  }

  lemma ServerTakeUser(x: S.ServerSession, m: Msg, n: nat, waiting: bool, stored: bool)
    ensures var y := S.Handle(x, m, n, waiting, stored).x;
            && y.extra == x.extra && y.hand == x.hand && y.read == x.read && y.sent == x.sent
            && (y.pc == x.pc || (x.pc.Select? && y.pc.Replied?))
  {
  }

  lemma ServerHandleOther(x: S.ServerSession, m: Msg, n: nat, waiting: bool, stored: bool)
    requires !m.Data?
    ensures var y := S.Handle(x, m, n, waiting, stored).x;
            && y.seen.handled == x.seen.handled && y.seen.skipped == x.seen.skipped
            && y.conn.written == x.conn.written && (ServerWrites(y) ==> ServerWrites(x))
  {
  }

  lemma ServerTakeOther(v: View, n: nat)
    requires v.toServer != [] && !v.toServer[0].Data?
    ensures var p, q := DownPipe(v), DownPipe(ServerTake(v, n));
            q == p.(works := q.works) && (q.works ==> p.works)
  {
    PayloadsHead(v.toServer);
    ServerHandleOther(v.s, v.toServer[0], n, v.waiting, v.stored);
  }

  lemma ServerTakeData(v: View, n: nat)
    requires Agreement(v) && v.toServer != [] && v.toServer[0].Data?
    ensures var p, q, c := DownPipe(v), DownPipe(ServerTake(v, n)), v.toServer[0].payload;
            && p.queued != [] && p.queued[0] == c
            && q == p.(queued := p.queued[1..], handled := p.handled + 1, written := q.written, works := q.works,
                       skipped := if S.BeforeStore(v.s.pc) then p.skipped + 1 else p.skipped)
            && (S.BeforeStore(v.s.pc) ==> q.written == p.written && q.works == p.works)
            && (q.written == p.written || (p.works && q.written == p.written + c[..if n < |c| then n else |c|]))
            && (q.works && !S.BeforeStore(v.s.pc) ==> p.works && q.written == p.written + c)
  {
    PayloadsHead(v.toServer);
  }

  lemma ServerTakeDownKeeps(v: View, n: nat)
    requires Agreement(v) && v.toServer != [] && PipeInv(DownPipe(v))
    requires S.BeforeStore(v.s.pc) ==> v.s.conn.written == [] && v.s.seen.skipped == v.s.seen.handled
    ensures PipeInv(DownPipe(ServerTake(v, n)))
  {
    var p, q, m := DownPipe(v), DownPipe(ServerTake(v, n)), v.toServer[0];
    if m.Data? {
      ServerTakeData(v, n);
      if S.BeforeStore(v.s.pc) {
        SkipKeepsPipe(p);
      } else {
        HandleKeepsPipe(p, q, if n < |m.payload| then n else |m.payload|);
      }
    } else {
      ServerTakeOther(v, n);
    }
  }

  lemma ServerTakeFresh(v: View, n: nat)
    requires Agreement(v) && v.toServer != []
    requires S.BeforeStore(v.s.pc) ==> v.s.conn.written == [] && v.s.seen.skipped == v.s.seen.handled
    ensures var y := ServerTake(v, n).s;
            S.BeforeStore(y.pc) ==> y.conn.written == [] && y.seen.skipped == y.seen.handled
  {
  }

  lemma ServerTakeKeeps(v: View, n: nat)
    requires SessInv(v) && v.toServer != []
    ensures SessInv(ServerTake(v, n))
  {
    ServerTakeAgreement(v, n);
    ServerTakeUpPipe(v, n);
    ServerTakeUser(v.s, v.toServer[0], n, v.waiting, v.stored);
    ServerTakeFresh(v, n);
    ServerTakeDownKeeps(v, n);
  }

  // ---------------------------------------------------------------- messages reaching the node

  /** The oldest message for the session is handled by the node; `k` bytes of it reach the destination. */
  function NodeTake(v: View, k: nat): View
    requires v.toNode != []
  {
    var m, u := v.toNode[0], v.(toNode := v.toNode[1..]);
    if v.n.Some? then NodeEffect(u, N.Handle(v.n.value, m, k, v.mapped))
    else if m.Create? then u.(n := Some(N.NEW_SESSION)) else u
  }

  lemma NodeTakeAgreement(v: View, k: nat)
    requires Agreement(v) && v.toNode != []
    ensures Agreement(NodeTake(v, k))
  {
    var w := NodeTake(v, k);
    assert v.toNode[0] in v.toNode;
    assert forall m <- w.toNode :: m in v.toNode;
  }

  lemma NodeTakeDownPipe(v: View, k: nat)
    requires Agreement(v) && v.toNode != []
    ensures var w := NodeTake(v, k);
            && DownPipe(w) == DownPipe(v)
            && ((v.n.Some? ==> DestAccount(v.n.value)) ==> (w.n.Some? ==> DestAccount(w.n.value)))
  {
  }

  lemma NodeHandleOther(x: N.NodeSession, m: Msg, k: nat, mapped: bool)
    requires !m.Data?
    ensures var y := N.Handle(x, m, k, mapped).x;
            y.handled == x.handled && y.conn.written == x.conn.written && (NodeWrites(y) ==> NodeWrites(x))
  {
  }

  lemma NodeTakeOther(v: View, k: nat)
    requires Agreement(v) && v.toNode != [] && !v.toNode[0].Data?
    ensures var p, q := UpPipe(v), UpPipe(NodeTake(v, k));
            q == p.(works := q.works) && (q.works ==> p.works)
  {
    PayloadsHead(v.toNode);
    if v.n.Some? {
      NodeHandleOther(v.n.value, v.toNode[0], k, v.mapped);
    }
  }

  lemma NodeTakeData(v: View, k: nat)
    requires Agreement(v) && v.toNode != [] && v.toNode[0].Data? && !Silent(v.s.pc)
    ensures var p, q, c := UpPipe(v), UpPipe(NodeTake(v, k)), v.toNode[0].payload;
            && p.queued != [] && p.queued[0] == c
            && q == p.(queued := p.queued[1..], handled := p.handled + 1, written := q.written, works := q.works)
            && (q.written == p.written || (p.works && q.written == p.written + c[..if k < |c| then k else |c|]))
            && (q.works ==> p.works && q.written == p.written + c)
  {
    PayloadsHead(v.toNode);
  }

  lemma NodeTakeKeeps(v: View, k: nat)
    requires SessInv(v) && v.toNode != []
    ensures SessInv(NodeTake(v, k))
  {
    NodeTakeAgreement(v, k);
    NodeTakeDownPipe(v, k);
    var p, q, m := UpPipe(v), UpPipe(NodeTake(v, k)), v.toNode[0];
    if m.Data? {
      PayloadsHead(v.toNode);
      assert !Silent(v.s.pc);
      NodeTakeData(v, k);
      HandleKeepsPipe(p, q, if k < |m.payload| then k else |m.payload|);
    } else {
      NodeTakeOther(v, k);
    }
  }
}
