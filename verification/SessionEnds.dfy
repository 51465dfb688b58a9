/** How the sessions of a tunnel end: what the CLOSE messages in flight say about the node, what becomes of messages
    that arrive before the server has stored their session, and what a session closed by its destination delivered. */
module SessionEnds {
  import opened Prelude
  import opened TunnelMessages
  import opened SessionProtocol
  import opened SessionSteps
  import S = ServerTunnel
  import N = NodeTunnel

  predicate NodeStopped(x: N.NodeSession) { x.pc.Leaving? || x.pc.Closed? || x.pc.Gone? }

  predicate CloseIn(q: seq<Msg>) { exists m <- q :: m.Close? }

  lemma CloseInQueue(q: seq<Msg>, up: bool, m: Option<Msg>)
    ensures CloseIn(Queue(q, up, m)) <==> CloseIn(q) || (up && m.Some? && m.value.Close?)
  {
    if m.Some? && up {
      assert m.value in q + [m.value];
      assert forall x <- q :: x in q + [m.value];
    }
  }

  lemma CloseInTail(q: seq<Msg>)
    requires q != []
    ensures CloseIn(q) <==> q[0].Close? || CloseIn(q[1..])
  {
    assert q[0] in q && forall m <- q[1..] :: m in q;
    assert forall m <- q :: m == q[0] || m in q[1..];
  }

  /** The connection was closed, and not because the user hung up. */
  predicate ClosedByNode(x: S.ServerSession) { !x.conn.open && !x.conn.eof }

  /** The server has opened, or may yet open, the session for the user, and has not closed it. */
  predicate ServerHolds(x: S.ServerSession) {
    x.pc.EnterSelect? || x.pc.Select? || x.pc == S.Replied(true) || x.pc.WriteExtra? || x.pc.StoreSession? ||
    (x.pc.Pump? && x.conn.open)
  }

  // ---------------------------------------------------------------- the server's CLOSE

  /** DATA and CLOSE travel only between a server and a node that has announced the session. The server's CLOSE answers
      a stray DATA message; unless the link fails, it makes the node stop. */
  predicate StrayInv(v: View) {
    && (forall m <- v.toServer :: m.Data? || m.Close? ==> v.n.Some? && N.Announced(v.n.value.pc))
    && (CloseIn(v.toNode) ==> v.n.Some? && N.Announced(v.n.value.pc) && v.s.seen.stray > 0)
    && v.s.seen.skipped <= v.s.seen.stray && (!v.s.pc.Done? ==> v.s.seen.skipped == v.s.seen.stray)
    && (v.s.seen.stray > 0 && v.upS ==>
          v.n.Some? && (NodeStopped(v.n.value) || v.n.value.conn.closeFlag || CloseIn(v.toNode)))
  }

  /** The node stops because its destination hung up or because the server's CLOSE closed the connection. */
  predicate StopInv(v: View) {
    v.n.Some? ==>
      var x := v.n.value;
      && (x.conn.closeFlag ==> !x.conn.open && v.s.seen.stray > 0)
      && (!x.conn.open ==> x.conn.closeFlag || NodeStopped(x))
      && (NodeStopped(x) ==> (x.conn.eof || x.conn.closeFlag) && (x.told || x.conn.closeFlag))
  }

  lemma ServerRunStray(v: View, sid: Sid)
    requires StrayInv(v) && StopInv(v) && S.CanRun(v.s)
    ensures StrayInv(ServerRun(v, sid)) && StopInv(ServerRun(v, sid))
  {
    CloseInQueue(v.toNode, v.upS, S.Run(v.s, sid, v.upS, v.waiting, v.stored).emit);
  }

  lemma NodeRunStray(v: View, sid: Sid, dialed: bool)
    requires Agreement(v) && StrayInv(v) && v.n.Some? && N.CanRun(v.n.value)
    ensures StrayInv(NodeRun(v, sid, dialed))
  {
  }

  lemma NodeRunStop(v: View, sid: Sid, dialed: bool)
    requires Agreement(v) && StopInv(v) && v.n.Some? && N.CanRun(v.n.value)
    ensures StopInv(NodeRun(v, sid, dialed))
  {
  }

  lemma ServerTakeStray(v: View, n: nat)
    requires Agreement(v) && StrayInv(v) && StopInv(v) && v.toServer != []
    ensures StrayInv(ServerTake(v, n)) && StopInv(ServerTake(v, n))
  {
    assert v.toServer[0] in v.toServer && forall m <- v.toServer[1..] :: m in v.toServer;
    CloseInQueue(v.toNode, v.upS, S.Handle(v.s, v.toServer[0], n, v.waiting, v.stored).emit);
  }

  lemma NodeTakeStray(v: View, k: nat)
    requires Agreement(v) && StrayInv(v) && StopInv(v) && v.toNode != []
    ensures StrayInv(NodeTake(v, k)) && StopInv(NodeTake(v, k))
  {
    CloseInTail(v.toNode);
  }

  // ---------------------------------------------------------------- the node's CLOSE

  /** The node's CLOSE is on its way, or was handled too early, or has closed the session, and only one of these. */
  predicate ToldInv(v: View) {
    && (v.n.Some? && v.n.value.told ==> NodeStopped(v.n.value))
    && (CloseIn(v.toServer) || v.s.seen.closes > 0 || ClosedByNode(v.s) ==> v.n.Some? && v.n.value.told)
    && (CloseIn(v.toServer) ==> v.s.seen.closes == 0 && !ClosedByNode(v.s))
    && (v.s.seen.closes > 0 ==> !ClosedByNode(v.s))
    && (v.n.Some? && v.n.value.told && v.upN && v.s.seen.closes == 0 && ServerHolds(v.s) ==> CloseIn(v.toServer))
  }

  lemma ServerRunTold(v: View, sid: Sid)
    requires Agreement(v) && ToldInv(v) && EndInv(v) && S.CanRun(v.s)
    ensures ToldInv(ServerRun(v, sid))
  {
  }

  lemma NodeRunTold(v: View, sid: Sid, dialed: bool)
    requires Agreement(v) && ToldInv(v) && v.n.Some? && N.CanRun(v.n.value)
    ensures ToldInv(NodeRun(v, sid, dialed))
  {
    CloseInQueue(v.toServer, v.upN, N.Run(v.n.value, sid, dialed, v.mapped).emit);
  }

  lemma ServerTakeTold(v: View, n: nat)
    requires Agreement(v) && ToldInv(v) && CloseLast(v.toServer) && v.toServer != []
    ensures ToldInv(ServerTake(v, n))
  {
    CloseInTail(v.toServer);
    CloseLastTail(v.toServer);
  }

  lemma NodeTakeTold(v: View, k: nat)
    requires Agreement(v) && ToldInv(v) && v.toNode != []
    ensures ToldInv(NodeTake(v, k))
  {
  }

  // ---------------------------------------------------------------- sessions that their destination closed

  /** The node's CLOSE is the last word of a session. */
  predicate CloseLast(q: seq<Msg>) { forall i :: 0 <= i < |q| - 1 ==> !q[i].Close? }

  /** All that the node ever sends was handled, and what was not skipped has reached the user. */
  predicate AllHandled(v: View) {
    && v.n.Some? && Payloads(v.toServer) == []
    && v.s.seen.handled == |v.n.value.sent| && v.s.seen.skipped <= |v.n.value.sent|
    && (!v.s.conn.broken ==> v.s.conn.written == Concat(v.n.value.sent[v.s.seen.skipped..]))
  }

  predicate EndInv(v: View) {
    && (v.s.conn.closeFlag || v.s.pc.Leaving? || v.s.pc.Done? ==> !v.s.conn.open)
    && (v.n.Some? && (v.n.value.pc.Closed? || v.n.value.pc.Gone?) ==> !v.n.value.conn.open)
    && CloseLast(v.toServer)
    && (CloseIn(v.toServer) ==> v.n.Some? && v.s.seen.handled <= |v.n.value.sent| &&
                                Payloads(v.toServer) == v.n.value.sent[v.s.seen.handled..])
    && (ClosedByNode(v.s) ==> AllHandled(v))
    && (v.n.Some? ==> forall c <- v.n.value.chunks :: c != [])
  }

  lemma ServerRunEnd(v: View, sid: Sid)
    requires Agreement(v) && EndInv(v) && S.CanRun(v.s)
    ensures EndInv(ServerRun(v, sid))
  {
  }

  lemma NodeSendsEnd(v: View, sid: Sid, dialed: bool)
    requires SessInv(v) && ToldInv(v) && EndInv(v) && v.n.Some? && v.n.value.hand != []
    ensures EndInv(NodeRun(v, sid, dialed))
  {
    var emit := N.Run(v.n.value, sid, dialed, v.mapped).emit;
    assert v.n.value.pc.Pumping? && !v.n.value.told;
    assert forall m <- v.toServer :: !m.Close?;
    CloseInQueue(v.toServer, v.upN, emit);
  }

  lemma NodeMovesEnd(v: View, sid: Sid, dialed: bool)
    requires SessInv(v) && ToldInv(v) && EndInv(v) && v.n.Some? && N.CanRun(v.n.value) && v.n.value.hand == []
    ensures EndInv(NodeRun(v, sid, dialed))
  {
    var x, w := v.n.value, NodeRun(v, sid, dialed);
    var emit := N.Run(x, sid, dialed, v.mapped).emit;
    CloseInQueue(v.toServer, v.upN, emit);
    QueuePayloads(v.toServer, v.upN, emit);
    NodeRunData(x, sid, dialed, v.mapped);
    assert w.n.value.sent == x.sent;
    if emit.Some? {
      assert forall m <- v.toServer :: !m.Close?;
    }
    if !CloseIn(v.toServer) && CloseIn(w.toServer) {
      assert DownPipe(v).queued == x.sent[v.s.seen.handled..];
    }
  }

  /** Once it has stopped, the node sends nothing more for the session. */
  lemma NodeRunEnd(v: View, sid: Sid, dialed: bool)
    requires SessInv(v) && ToldInv(v) && EndInv(v) && v.n.Some? && N.CanRun(v.n.value)
    ensures EndInv(NodeRun(v, sid, dialed))
  {
    if v.n.value.hand != [] {
      NodeSendsEnd(v, sid, dialed);
    } else {
      NodeMovesEnd(v, sid, dialed);
    }
  }

  lemma {:induction false} NoPayloads(q: seq<Msg>)
    requires forall m <- q :: !m.Data?
    ensures Payloads(q) == []
  {
    if q != [] {
      assert forall m <- q[1..] :: m in q;
      NoPayloads(q[1..]);
    }
  }

  lemma CloseLastTail(q: seq<Msg>)
    requires CloseLast(q) && q != []
    ensures CloseLast(q[1..]) && (q[0].Close? ==> q[1..] == [] && Payloads(q) == [])
  {
    if q[0].Close? {
      assert |q| == 1;
      NoPayloads(q);
    }
  }

  /** A cut queue either lost the node's CLOSE or is whole. */
  lemma CutKeepsClose(q: seq<Msg>, k: nat)
    requires CloseLast(q) && k <= |q|
    ensures CloseLast(q[..k]) && (CloseIn(q[..k]) ==> q[..k] == q)
  {
    if m :| m in q[..k] && m.Close? {
      var i :| 0 <= i < k && q[i] == m;
      assert i == |q| - 1;
    }
  }

  lemma ServerTakesClose(v: View, n: nat)
    requires SessInv(v) && ToldInv(v) && EndInv(v) && v.toServer != [] && v.toServer[0].Close?
    ensures EndInv(ServerTake(v, n))
  {
    CloseLastTail(v.toServer);
    CloseInTail(v.toServer);
    PayloadsHead(v.toServer);
    var x := v.n.value;
    assert x.sent[v.s.seen.handled..] == [];
    assert DownPipe(v).sent[v.s.seen.skipped..v.s.seen.handled] == x.sent[v.s.seen.skipped..];
  }

  lemma DataEffect(v: View, n: nat)
    requires v.toServer != [] && v.toServer[0].Data?
    ensures var w := ServerTake(v, n);
            && w.n == v.n && w.toServer == v.toServer[1..] && w.s.pc == v.s.pc
            && w.s.conn.open == v.s.conn.open && w.s.conn.eof == v.s.conn.eof
            && w.s.conn.closeFlag == v.s.conn.closeFlag
            && w.s.seen.handled == v.s.seen.handled + 1
  {
  }

  lemma ServerTakesData(v: View, w: View)
    requires EndInv(v) && v.toServer != [] && v.toServer[0].Data?
    requires w.n == v.n && w.toServer == v.toServer[1..] && w.s.pc == v.s.pc
    requires w.s.conn.open == v.s.conn.open && w.s.conn.eof == v.s.conn.eof && w.s.conn.closeFlag == v.s.conn.closeFlag
    requires w.s.seen.handled == v.s.seen.handled + 1
    ensures EndInv(w)
  {
    CloseLastTail(v.toServer);
    CloseInTail(v.toServer);
    PayloadsHead(v.toServer);
    assert !ClosedByNode(v.s);
    if CloseIn(w.toServer) {
      assert v.n.value.sent[v.s.seen.handled..][1..] == v.n.value.sent[w.s.seen.handled..];
    }
  }

  lemma ServerTakesOther(v: View, n: nat)
    requires EndInv(v) && v.toServer != [] && !v.toServer[0].Close? && !v.toServer[0].Data?
    ensures EndInv(ServerTake(v, n))
  {
    CloseLastTail(v.toServer);
    CloseInTail(v.toServer);
    PayloadsHead(v.toServer);
  }

  lemma ServerTakeEnd(v: View, n: nat)
    requires SessInv(v) && ToldInv(v) && EndInv(v) && v.toServer != []
    ensures EndInv(ServerTake(v, n))
  {
    if v.toServer[0].Close? {
      ServerTakesClose(v, n);
    } else if v.toServer[0].Data? {
      DataEffect(v, n);
      ServerTakesData(v, ServerTake(v, n));
    } else {
      ServerTakesOther(v, n);
    }
  }

  /** Messages that reach the node change nothing that ends concern. */
  lemma NodeTakeSame(v: View, k: nat)
    requires Agreement(v) && v.toNode != []
    ensures var w := NodeTake(v, k);
            && w.s == v.s && w.toServer == v.toServer
            && (v.n.Some? ==> w.n.Some? && w.n.value.sent == v.n.value.sent && w.n.value.chunks == v.n.value.chunks)
            && (v.n.None? && w.n.Some? ==> w.n.value == N.NEW_SESSION)
  {
  }

  lemma NodeTakeEnd(v: View, k: nat)
    requires Agreement(v) && EndInv(v) && v.toNode != []
    ensures EndInv(NodeTake(v, k))
  {
    NodeTakeSame(v, k);
  }

  // ---------------------------------------------------------------- link failures

  lemma CutEnd(v: View, k: nat)
    requires StrayInv(v) && StopInv(v) && ToldInv(v) && EndInv(v) && k <= |v.toServer|
    ensures var w := v.(upN := false, toServer := v.toServer[..k]);
            StrayInv(w) && StopInv(w) && ToldInv(w) && EndInv(w)
  {
    var p := v.toServer[..k];
    assert forall m <- p :: m in v.toServer;
    PayloadsPrefix(p, v.toServer);
    CutKeepsClose(v.toServer, k);
  }
}
