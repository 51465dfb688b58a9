/** The invariant of the whole tunnel, and that every action of every run keeps it. */
module SessionInvariant {
  import opened Prelude
  import opened TunnelMessages
  import opened SessionProtocol
  import opened SessionSteps
  import S = ServerTunnel
  import N = NodeTunnel

  predicate ToNodeOk(t: Tunnel, m: Msg) {
    if m.UdpData? then m.sid.V5? else !m.Reply? && S.Known(t.srv, m.sid)
  }

  predicate ToServerOk(t: Tunnel, m: Msg) {
    if m.UdpData? then m.sid.V5? else !m.Create? && S.Known(t.srv, m.sid)
  }

  /** Ids are used for one kind of session only, and nothing refers to a session that was never opened. */
  ghost predicate WellKinded(t: Tunnel) {
    && !t.srv.panicked
    && (forall sid <- t.srv.waitList :: S.Known(t.srv, sid))
    && (forall sid <- t.srv.proxys ::
          if sid.V5? then t.srv.proxys[sid].Udp? else t.srv.proxys[sid].Tcp? && S.Known(t.srv, sid))
    && (forall i <- t.node.sess :: i < |t.srv.sess|)
    && (forall sid <- t.node.sessions :: N.Known(t.node, sid))
    && (forall sid <- t.node.udps :: sid.V5?)
    && (forall m <- t.srv.out :: ToNodeOk(t, m))
    && (forall m <- t.node.out :: ToServerOk(t, m))
  }

  ghost predicate Inv(t: Tunnel) {
    WellKinded(t) && forall i: nat | i < |t.srv.sess| :: SessInv(ViewOf(t, i))
  }

  // ---------------------------------------------------------------- effects and views

  lemma ServerCommitView(t: Tunnel, i: nat, e: S.Effect, j: nat)
    requires i < |t.srv.sess| && j < |t.srv.sess| && (e.emit.Some? ==> e.emit.value.sid == V4(i))
    ensures ViewOf(t.(srv := S.Commit(t.srv, i, e)), j) ==
            if j == i then ServerEffect(ViewOf(t, i), e) else ViewOf(t, j)
  {
    if e.emit.Some? {
      OfSessionSnoc(t.srv.out, e.emit.value, V4(j));
    }
  }

  lemma NodeCommitView(t: Tunnel, i: nat, e: N.Effect, j: nat)
    requires i in t.node.sess && i < |t.srv.sess| && j < |t.srv.sess| && (e.emit.Some? ==> e.emit.value.sid == V4(i))
    ensures ViewOf(t.(node := N.Commit(t.node, i, e)), j) ==
            if j == i then NodeEffect(ViewOf(t, i), e) else ViewOf(t, j)
  {
    if e.emit.Some? {
      OfSessionSnoc(t.node.out, e.emit.value, V4(j));
    }
  }

  lemma ServerCommitKinded(t: Tunnel, i: nat, e: S.Effect)
    requires WellKinded(t) && i < |t.srv.sess| && (e.emit.Some? ==> ToNodeOk(t, e.emit.value))
    ensures WellKinded(t.(srv := S.Commit(t.srv, i, e)))
  {
    var u := t.(srv := S.Commit(t.srv, i, e));
    assert forall sid :: S.Known(u.srv, sid) == S.Known(t.srv, sid);
  }

  lemma NodeCommitKinded(t: Tunnel, i: nat, e: N.Effect)
    requires WellKinded(t) && i in t.node.sess && (e.emit.Some? ==> ToServerOk(t, e.emit.value))
    ensures WellKinded(t.(node := N.Commit(t.node, i, e)))
  {
    var u := t.(node := N.Commit(t.node, i, e));
    assert forall sid :: N.Known(u.node, sid) == N.Known(t.node, sid);
  }

  // ---------------------------------------------------------------- the programs' own actions

  lemma ServerStepEmits(x: S.ServerSession, i: nat, up: bool, waiting: bool, stored: bool)
    ensures var m := S.Run(x, V4(i), up, waiting, stored).emit;
            m.Some? ==> m.value.sid == V4(i) && !m.value.UdpData? && !m.value.Reply?
  {
  }

  lemma ServerStepKeeps(t: Tunnel, i: nat)
    requires Inv(t) && Enabled(t, ServerStep(i))
    ensures Inv(Apply(t, ServerStep(i)))
  {
    var v := ViewOf(t, i);
    var e := S.Run(v.s, V4(i), v.upS, v.waiting, v.stored);
    assert SessInv(v);
    ServerStepEmits(v.s, i, v.upS, v.waiting, v.stored);
    ServerCommitKinded(t, i, e);
    var u := Apply(t, ServerStep(i));
    forall j: nat | j < |u.srv.sess| ensures SessInv(ViewOf(u, j)) {
      ServerCommitView(t, i, e, j);
      ServerRunKeeps(v, V4(i));
    }
  }

  lemma NodeStepEmits(x: N.NodeSession, i: nat, dialed: bool, mapped: bool)
    ensures var m := N.Run(x, V4(i), dialed, mapped).emit;
            m.Some? ==> m.value.sid == V4(i) && !m.value.UdpData? && !m.value.Create?
  {
  }

  lemma NodeStepKeeps(t: Tunnel, i: nat, dialed: bool)
    requires Inv(t) && Enabled(t, NodeStep(i, dialed))
    ensures Inv(Apply(t, NodeStep(i, dialed)))
  {
    var v := ViewOf(t, i);
    var e := N.Run(t.node.sess[i], V4(i), dialed, v.mapped);
    assert SessInv(v);
    NodeStepEmits(t.node.sess[i], i, dialed, v.mapped);
    NodeCommitKinded(t, i, e);
    var u := Apply(t, NodeStep(i, dialed));
    forall j: nat | j < |u.srv.sess| ensures SessInv(ViewOf(u, j)) {
      NodeCommitView(t, i, e, j);
      NodeRunKeeps(v, V4(i), dialed);
    }
  }

  lemma TakenView(t: Tunnel, j: nat)
    requires j < |t.srv.sess|
    ensures t.node.out != [] ==>
              var m, v := t.node.out[0], ViewOf(t, j);
              && (m.sid == V4(j) ==> v.toServer != [] && v.toServer[0] == m)
              && ViewOf(t.(node := t.node.(out := t.node.out[1..])), j) ==
                 (if m.sid == V4(j) then v.(toServer := v.toServer[1..]) else v)
    ensures t.srv.out != [] ==>
              var m, v := t.srv.out[0], ViewOf(t, j);
              && (m.sid == V4(j) ==> v.toNode != [] && v.toNode[0] == m)
              && ViewOf(t.(srv := t.srv.(out := t.srv.out[1..])), j) ==
                 (if m.sid == V4(j) then v.(toNode := v.toNode[1..]) else v)
  {
  }

  lemma TakenKinded(t: Tunnel)
    requires WellKinded(t)
    ensures t.node.out != [] ==> WellKinded(t.(node := t.node.(out := t.node.out[1..]))) && ToServerOk(t, t.node.out[0])
    ensures t.srv.out != [] ==> WellKinded(t.(srv := t.srv.(out := t.srv.out[1..]))) && ToNodeOk(t, t.srv.out[0])
  {
    assert t.node.out != [] ==> t.node.out[0] in t.node.out && forall x <- t.node.out[1..] :: x in t.node.out;
    assert t.srv.out != [] ==> t.srv.out[0] in t.srv.out && forall x <- t.srv.out[1..] :: x in t.srv.out;
  }

  function ServerHandles(t: Tunnel, n: nat): S.Effect
    requires t.node.out != [] && S.Known(t.srv, t.node.out[0].sid)
  {
    var m := t.node.out[0];
    S.Handle(t.srv.sess[m.sid.index], m, n, m.sid in t.srv.waitList, m.sid in t.srv.proxys)
  }

  /** A message from the node is taken off its queue and, unless it is for UDP, commits the effect of its handler. */
  lemma DeliveredToServer(t: Tunnel, n: nat)
    requires WellKinded(t) && Enabled(t, DeliverToServer(n))
    ensures var m, u := t.node.out[0], t.(node := t.node.(out := t.node.out[1..]));
            && WellKinded(u) && ToServerOk(t, m)
            && Apply(t, DeliverToServer(n)) ==
               if m.UdpData? then u else u.(srv := S.Commit(u.srv, m.sid.index, ServerHandles(t, n)))
  {
    TakenKinded(t);
  }

  lemma DeliverToServerView(t: Tunnel, n: nat, j: nat)
    requires WellKinded(t) && Enabled(t, DeliverToServer(n)) && j < |t.srv.sess|
    ensures |Apply(t, DeliverToServer(n)).srv.sess| == |t.srv.sess|
    ensures var m := t.node.out[0];
            && (m.sid == V4(j) ==> ViewOf(t, j).toServer != [])
            && ViewOf(Apply(t, DeliverToServer(n)), j) ==
               (if m.sid == V4(j) then ServerTake(ViewOf(t, j), n) else ViewOf(t, j))
  {
    var m, u := t.node.out[0], t.(node := t.node.(out := t.node.out[1..]));
    DeliveredToServer(t, n);
    TakenView(t, j);
    if !m.UdpData? {
      ServerCommitView(u, m.sid.index, ServerHandles(t, n), j);
    }
  }

  lemma DeliverToServerKinded(t: Tunnel, n: nat)
    requires WellKinded(t) && Enabled(t, DeliverToServer(n))
    ensures WellKinded(Apply(t, DeliverToServer(n)))
  {
    var m, u := t.node.out[0], t.(node := t.node.(out := t.node.out[1..]));
    DeliveredToServer(t, n);
    if !m.UdpData? {
      ServerCommitKinded(u, m.sid.index, ServerHandles(t, n));
    }
  }

  lemma DeliverToServerKeeps(t: Tunnel, n: nat)
    requires Inv(t) && Enabled(t, DeliverToServer(n))
    ensures Inv(Apply(t, DeliverToServer(n)))
  {
    var w := Apply(t, DeliverToServer(n));
    DeliverToServerKinded(t, n);
    forall j: nat | j < |w.srv.sess| ensures SessInv(ViewOf(w, j)) {
      DeliverToServerView(t, n, 0);
      DeliverToServerView(t, n, j);
      if t.node.out[0].sid == V4(j) {
        ServerTakeKeeps(ViewOf(t, j), n);
      }
    }
  }

  function NodeHandles(t: Tunnel, k: nat): N.Effect
    requires t.srv.out != [] && N.Known(t.node, t.srv.out[0].sid)
  {
    var m := t.srv.out[0];
    N.Handle(t.node.sess[m.sid.index], m, k, m.sid in t.node.sessions)
  }

  lemma DeliveredToNode(t: Tunnel, k: nat)
    requires WellKinded(t) && Enabled(t, DeliverToNode(k))
    ensures var m, u := t.srv.out[0], t.(srv := t.srv.(out := t.srv.out[1..]));
            && WellKinded(u) && ToNodeOk(t, m)
            && Apply(t, DeliverToNode(k)) ==
               if m.UdpData? then u.(node := u.node.(udps := u.node.udps + {m.sid}))
               else if N.Known(t.node, m.sid) then u.(node := N.Commit(u.node, m.sid.index, NodeHandles(t, k)))
               else if m.Create? then u.(node := u.node.(sess := u.node.sess[m.sid.index := N.NEW_SESSION]))
               else u
  {
    TakenKinded(t);
  }

  /** A CREATE adds a session; nothing else reaches a session that the node does not know. */
  lemma NewAtNodeView(t: Tunnel, m: Msg, j: nat)
    requires m.sid.V4? && m.sid.index !in t.node.sess && j < |t.srv.sess|
    ensures ViewOf(t.(node := t.node.(sess := t.node.sess[m.sid.index := N.NEW_SESSION])), j) ==
            if m.sid == V4(j) then ViewOf(t, j).(n := Some(N.NEW_SESSION)) else ViewOf(t, j)
  {
  }

  lemma DeliverToNodeView(t: Tunnel, k: nat, j: nat)
    requires WellKinded(t) && Enabled(t, DeliverToNode(k)) && j < |t.srv.sess|
    ensures Apply(t, DeliverToNode(k)).srv.sess == t.srv.sess
    ensures var m := t.srv.out[0];
            && (m.sid == V4(j) ==> ViewOf(t, j).toNode != [])
            && ViewOf(Apply(t, DeliverToNode(k)), j) ==
               (if m.sid == V4(j) then NodeTake(ViewOf(t, j), k) else ViewOf(t, j))
  {
    var m, u := t.srv.out[0], t.(srv := t.srv.(out := t.srv.out[1..]));
    DeliveredToNode(t, k);
    TakenView(t, j);
    if m.UdpData? {
    } else if N.Known(t.node, m.sid) {
      NodeCommitView(u, m.sid.index, NodeHandles(t, k), j);
    } else {
      NewAtNodeView(u, m, j);
    }
  }

  lemma DeliverToNodeKinded(t: Tunnel, k: nat)
    requires WellKinded(t) && Enabled(t, DeliverToNode(k))
    ensures WellKinded(Apply(t, DeliverToNode(k)))
  {
    var m, u := t.srv.out[0], t.(srv := t.srv.(out := t.srv.out[1..]));
    DeliveredToNode(t, k);
    if !m.UdpData? && N.Known(t.node, m.sid) {
      NodeCommitKinded(u, m.sid.index, NodeHandles(t, k));
    }
  }

  lemma DeliverToNodeKeeps(t: Tunnel, k: nat)
    requires Inv(t) && Enabled(t, DeliverToNode(k))
    ensures Inv(Apply(t, DeliverToNode(k)))
  {
    var w := Apply(t, DeliverToNode(k));
    DeliverToNodeKinded(t, k);
    forall j: nat | j < |w.srv.sess| ensures SessInv(ViewOf(w, j)) {
      DeliverToNodeView(t, k, j);
      if t.srv.out[0].sid == V4(j) {
        NodeTakeKeeps(ViewOf(t, j), k);
      }
    }
  }

  // ---------------------------------------------------------------- what the surroundings do

  lemma AcceptView(t: Tunnel, extra: Bytes, j: nat)
    requires WellKinded(t) && j <= |t.srv.sess|
    ensures ViewOf(Apply(t, Accept(extra)), j) ==
            if j < |t.srv.sess| then ViewOf(t, j)
            else View(t.srv.up, t.node.up, S.NewSession(extra), None, [], [], true, false, false)
  {
    if j == |t.srv.sess| {
      OfSessionNone(t.srv.out, V4(j));
      OfSessionNone(t.node.out, V4(j));
    }
  }

  lemma NewSessionInv(upS: bool, upN: bool, extra: Bytes)
    ensures SessInv(View(upS, upN, S.NewSession(extra), None, [], [], true, false, false))
  {
  }

  lemma AcceptKeeps(t: Tunnel, extra: Bytes)
    requires Inv(t)
    ensures Inv(Apply(t, Accept(extra)))
  {
    var u := Apply(t, Accept(extra));
    assert forall sid :: S.Known(t.srv, sid) ==> S.Known(u.srv, sid);
    forall j: nat | j < |u.srv.sess| ensures SessInv(ViewOf(u, j)) {
      AcceptView(t, extra, j);
      NewSessionInv(t.srv.up, t.node.up, extra);
    }
  }

  lemma UserReadAccount(s: S.ServerSession, chunk: Bytes)
    requires UserAccount(s) && S.CanRead(s, chunk)
    ensures UserAccount(S.ReadUser(s, chunk))
  {
    assert s.extra + S.ReadUser(s, chunk).read == s.extra + s.read + chunk;
  }

  lemma UserReadKeeps(v: View, chunk: Bytes)
    requires SessInv(v) && S.CanRead(v.s, chunk)
    ensures SessInv(v.(s := S.ReadUser(v.s, chunk)))
  {
    var w := v.(s := S.ReadUser(v.s, chunk));
    UserReadAccount(v.s, chunk);
    assert UpPipe(w) == UpPipe(v) && DownPipe(w) == DownPipe(v);
  }

  lemma UserHangUpKeeps(v: View)
    requires SessInv(v)
    ensures SessInv(v.(s := v.s.(conn := v.s.conn.(eof := true))))
  {
    var w := v.(s := v.s.(conn := v.s.conn.(eof := true)));
    assert UpPipe(w) == UpPipe(v) && DownPipe(w) == DownPipe(v);
  }

  lemma UserKeeps(t: Tunnel, a: Action)
    requires Inv(t) && Enabled(t, a) && (a.UserBytes? || a.UserHangUp?)
    ensures Inv(Apply(t, a))
  {
    var u := Apply(t, a);
    assert forall sid :: S.Known(u.srv, sid) == S.Known(t.srv, sid);
    forall j: nat | j < |u.srv.sess| ensures SessInv(ViewOf(u, j)) {
      var v := ViewOf(t, j);
      assert ViewOf(u, j) == v.(s := u.srv.sess[j]);
      if a.UserBytes? && j == a.i {
        UserReadKeeps(v, a.chunk);
      } else if j == a.i {
        UserHangUpKeeps(v);
      }
    }
  }

  lemma DestReadKeeps(v: View, chunk: Bytes)
    requires SessInv(v) && v.n.Some? && N.CanRead(v.n.value, chunk)
    ensures SessInv(v.(n := Some(N.ReadDest(v.n.value, chunk))))
  {
    var w := v.(n := Some(N.ReadDest(v.n.value, chunk)));
    assert UpPipe(w) == UpPipe(v) && DownPipe(w) == DownPipe(v);
  }

  lemma DestHangUpKeeps(v: View)
    requires SessInv(v) && v.n.Some?
    ensures SessInv(v.(n := Some(v.n.value.(conn := v.n.value.conn.(eof := true)))))
  {
    var w := v.(n := Some(v.n.value.(conn := v.n.value.conn.(eof := true))));
    assert UpPipe(w) == UpPipe(v) && DownPipe(w) == DownPipe(v);
  }

  lemma DestView(t: Tunnel, a: Action, j: nat)
    requires Enabled(t, a) && (a.DestBytes? || a.DestHangUp?) && j < |t.srv.sess|
    ensures var u := Apply(t, a); var v := ViewOf(t, j);
            ViewOf(u, j) == if j == a.i then v.(n := Some(u.node.sess[j])) else v
  {
  }

  lemma DestKeeps(t: Tunnel, a: Action)
    requires Inv(t) && Enabled(t, a) && (a.DestBytes? || a.DestHangUp?)
    ensures Inv(Apply(t, a))
  {
    var u := Apply(t, a);
    assert forall sid :: N.Known(u.node, sid) == N.Known(t.node, sid);
    forall j: nat | j < |u.srv.sess| ensures SessInv(ViewOf(u, j)) {
      DestView(t, a, j);
      if a.DestBytes? && j == a.i {
        DestReadKeeps(ViewOf(t, j), a.chunk);
      } else if j == a.i {
        DestHangUpKeeps(ViewOf(t, j));
      }
    }
  }

  lemma DatagramView(t: Tunnel, a: Action, j: nat)
    requires a.UserDatagram? || a.DestDatagram?
    requires j < |t.srv.sess|
    ensures ViewOf(Apply(t, a), j) == ViewOf(t, j)
  {
    if a.UserDatagram? {
      OfSessionSnoc(t.srv.out, UdpData(V5(a.hash), a.payload), V4(j));
    } else {
      OfSessionSnoc(t.node.out, UdpData(V5(a.hash), a.payload), V4(j));
    }
  }

  lemma UdpView(t: Tunnel, a: Action, j: nat)
    requires a.UserDatagram? || a.DestDatagram? || a.ExpireServerUdp? || a.ExpireNodeUdp?
    requires j < |t.srv.sess|
    ensures ViewOf(Apply(t, a), j) == ViewOf(t, j)
  {
    if a.UserDatagram? || a.DestDatagram? {
      DatagramView(t, a, j);
    }
  }

  lemma UdpKinded(t: Tunnel, a: Action)
    requires a.UserDatagram? || a.DestDatagram? || a.ExpireServerUdp? || a.ExpireNodeUdp?
    requires WellKinded(t)
    ensures WellKinded(Apply(t, a))
  {
    var u := Apply(t, a);
    assert forall sid :: S.Known(u.srv, sid) == S.Known(t.srv, sid);
    assert forall sid :: N.Known(u.node, sid) == N.Known(t.node, sid);
  }

  lemma UdpKeeps(t: Tunnel, a: Action)
    requires Inv(t)
    requires a.UserDatagram? || a.DestDatagram? || a.ExpireServerUdp? || a.ExpireNodeUdp?
    ensures Inv(Apply(t, a))
  {
    UdpKinded(t, a);
    forall j: nat | j < |t.srv.sess| ensures SessInv(ViewOf(Apply(t, a), j)) {
      UdpView(t, a, j);
    }
  }

  lemma CutToNode(v: View, w: View)
    requires SessInv(v) && w == v.(upS := false, toNode := w.toNode) && w.toNode <= v.toNode
    ensures SessInv(w)
  {
    assert forall m <- w.toNode :: m in v.toNode;
    PayloadsPrefix(w.toNode, v.toNode);
    CutKeepsPipe(UpPipe(v), Payloads(w.toNode), UpPipe(v).works);
  }

  lemma CutToServer(v: View, w: View)
    requires SessInv(v) && w == v.(upN := false, toServer := w.toServer) && w.toServer <= v.toServer
    ensures SessInv(w)
  {
    assert forall m <- w.toServer :: m in v.toServer;
    PayloadsPrefix(w.toServer, v.toServer);
    CutKeepsPipe(DownPipe(v), Payloads(w.toServer), DownPipe(v).works);
  }

  lemma BreakToNodeKinded(t: Tunnel, keep: nat)
    requires WellKinded(t) && Enabled(t, BreakToNode(keep))
    ensures WellKinded(Apply(t, BreakToNode(keep)))
  {
    var u := Apply(t, BreakToNode(keep));
    assert forall m <- u.srv.out :: m in t.srv.out;
    assert forall sid :: S.Known(u.srv, sid) == S.Known(t.srv, sid);
  }

  lemma BreakToNodeKeeps(t: Tunnel, keep: nat)
    requires Inv(t) && Enabled(t, BreakToNode(keep))
    ensures Inv(Apply(t, BreakToNode(keep)))
  {
    var u := Apply(t, BreakToNode(keep));
    BreakToNodeKinded(t, keep);
    forall j: nat | j < |u.srv.sess| ensures SessInv(ViewOf(u, j)) {
      OfSessionTake(t.srv.out, keep, V4(j));
      CutToNode(ViewOf(t, j), ViewOf(u, j));
    }
  }

  lemma BreakToServerKinded(t: Tunnel, keep: nat)
    requires WellKinded(t) && Enabled(t, BreakToServer(keep))
    ensures WellKinded(Apply(t, BreakToServer(keep)))
  {
    var u := Apply(t, BreakToServer(keep));
    assert forall m <- u.node.out :: m in t.node.out;
  }

  lemma BreakToServerKeeps(t: Tunnel, keep: nat)
    requires Inv(t) && Enabled(t, BreakToServer(keep))
    ensures Inv(Apply(t, BreakToServer(keep)))
  {
    var u := Apply(t, BreakToServer(keep));
    BreakToServerKinded(t, keep);
    forall j: nat | j < |u.srv.sess| ensures SessInv(ViewOf(u, j)) {
      OfSessionTake(t.node.out, keep, V4(j));
      CutToServer(ViewOf(t, j), ViewOf(u, j));
    }
  }

  // ---------------------------------------------------------------- runs

  lemma StepKeepsInv(t: Tunnel, a: Action)
    requires Inv(t) && Enabled(t, a)
    ensures Inv(Apply(t, a))
  {
    match a
    case Accept(extra) => AcceptKeeps(t, extra);
    case UserBytes(_, _) => UserKeeps(t, a);
    case UserHangUp(_) => UserKeeps(t, a);
    case DestBytes(_, _) => DestKeeps(t, a);
    case DestHangUp(_) => DestKeeps(t, a);
    case UserDatagram(_, _) => UdpKeeps(t, a);
    case DestDatagram(_, _) => UdpKeeps(t, a);
    case ExpireServerUdp(_) => UdpKeeps(t, a);
    case ExpireNodeUdp(_) => UdpKeeps(t, a);
    case BreakToNode(keep) => BreakToNodeKeeps(t, keep);
    case BreakToServer(keep) => BreakToServerKeeps(t, keep);
    case ServerStep(i) => ServerStepKeeps(t, i);
    case NodeStep(i, dialed) => NodeStepKeeps(t, i, dialed);
    case DeliverToNode(k) => DeliverToNodeKeeps(t, k);
    case DeliverToServer(n) => DeliverToServerKeeps(t, n);
  }

  lemma {:induction false} RunKeepsInv(t: Tunnel, run: seq<Action>)
    requires Inv(t) && ValidRun(t, run)
    ensures Inv(After(t, run))
    decreases |run|
  {
    if run != [] {
      StepKeepsInv(t, run[0]);
      RunKeepsInv(Apply(t, run[0]), run[1..]);
    }
  }
}
