/** The invariants of `SessionAnswers` and `SessionEnds`, about how sessions begin and end, hold in every run. */
module SessionRest {
  import opened Prelude
  import opened TunnelMessages
  import opened SessionProtocol
  import opened SessionAnswers
  import opened SessionEnds
  import opened SessionSteps
  import opened SessionInvariant
  import S = ServerTunnel
  import N = NodeTunnel

  predicate RestInv(v: View) { AnswerInv(v) && StrayInv(v) && StopInv(v) && ToldInv(v) && EndInv(v) }

  lemma ServerRunRests(v: View, sid: Sid)
    requires SessInv(v) && RestInv(v) && S.CanRun(v.s)
    ensures RestInv(ServerRun(v, sid))
  {
    ServerRunAnswers(v, sid);
    ServerRunStray(v, sid);
    ServerRunTold(v, sid);
    ServerRunEnd(v, sid);
  }

  lemma NodeRunRests(v: View, sid: Sid, dialed: bool)
    requires SessInv(v) && RestInv(v) && v.n.Some? && N.CanRun(v.n.value)
    ensures RestInv(NodeRun(v, sid, dialed))
  {
    NodeRunAnswers(v, sid, dialed);
    NodeRunStray(v, sid, dialed);
    NodeRunStop(v, sid, dialed);
    NodeRunTold(v, sid, dialed);
    NodeRunEnd(v, sid, dialed);
  }

  lemma ServerTakeRests(v: View, n: nat)
    requires SessInv(v) && RestInv(v) && v.toServer != []
    ensures RestInv(ServerTake(v, n))
  {
    ServerTakeAnswers(v, n);
    ServerTakeStray(v, n);
    ServerTakeTold(v, n);
    ServerTakeEnd(v, n);
  }

  lemma NodeTakeRests(v: View, k: nat)
    requires SessInv(v) && RestInv(v) && v.toNode != []
    ensures RestInv(NodeTake(v, k))
  {
    NodeTakeAnswers(v, k);
    NodeTakeStray(v, k);
    NodeTakeTold(v, k);
    NodeTakeEnd(v, k);
  }

  ghost predicate AllRest(t: Tunnel) {
    forall i: nat | i < |t.srv.sess| :: RestInv(ViewOf(t, i))
  }

  lemma OwnStepRests(t: Tunnel, a: Action)
    requires Inv(t) && AllRest(t) && Enabled(t, a) && (a.ServerStep? || a.NodeStep?)
    ensures AllRest(Apply(t, a))
  {
    var i := a.i;
    var v, u := ViewOf(t, i), Apply(t, a);
    assert SessInv(v) && RestInv(v);
    forall j: nat | j < |u.srv.sess| ensures RestInv(ViewOf(u, j)) {
      if a.ServerStep? {
        ServerStepEmits(v.s, i, v.upS, v.waiting, v.stored);
        ServerCommitView(t, i, S.Run(v.s, V4(i), v.upS, v.waiting, v.stored), j);
        ServerRunRests(v, V4(i));
      } else {
        NodeStepEmits(t.node.sess[i], i, a.dialed, v.mapped);
        NodeCommitView(t, i, N.Run(t.node.sess[i], V4(i), a.dialed, v.mapped), j);
        NodeRunRests(v, V4(i), a.dialed);
      }
    }
  }

  lemma DeliverToServerRests(t: Tunnel, n: nat)
    requires Inv(t) && AllRest(t) && Enabled(t, DeliverToServer(n))
    ensures AllRest(Apply(t, DeliverToServer(n)))
  {
    var u := Apply(t, DeliverToServer(n));
    DeliveredToServer(t, n);
    forall j: nat | j < |u.srv.sess| ensures RestInv(ViewOf(u, j)) {
      DeliverToServerView(t, n, j);
      if t.node.out[0].sid == V4(j) {
        assert SessInv(ViewOf(t, j));
        ServerTakeRests(ViewOf(t, j), n);
      }
    }
  }

  lemma DeliverToNodeRests(t: Tunnel, k: nat)
    requires Inv(t) && AllRest(t) && Enabled(t, DeliverToNode(k))
    ensures AllRest(Apply(t, DeliverToNode(k)))
  {
    var u := Apply(t, DeliverToNode(k));
    forall j: nat | j < |u.srv.sess| ensures RestInv(ViewOf(u, j)) {
      DeliverToNodeView(t, k, j);
      if t.srv.out[0].sid == V4(j) {
        assert SessInv(ViewOf(t, j));
        NodeTakeRests(ViewOf(t, j), k);
      }
    }
  }

  lemma AcceptRests(t: Tunnel, extra: Bytes)
    requires Inv(t) && AllRest(t)
    ensures AllRest(Apply(t, Accept(extra)))
  {
    var u := Apply(t, Accept(extra));
    forall j: nat | j < |u.srv.sess| ensures RestInv(ViewOf(u, j)) {
      AcceptView(t, extra, j);
    }
  }

  lemma UserInputRests(v: View, w: View)
    requires RestInv(v)
    requires w == v.(s := v.s.(hand := w.s.hand, read := w.s.read, conn := w.s.conn))
    requires w.s.conn == v.s.conn || w.s.conn == v.s.conn.(eof := true)
    ensures RestInv(w)
  {
  }

  lemma DestInputRests(v: View, w: View)
    requires RestInv(v) && v.n.Some? && w == v.(n := w.n) && w.n.Some?
    requires var x, y := v.n.value, w.n.value;
             y == x.(conn := x.conn.(eof := true)) || exists c :: N.CanRead(x, c) && y == N.ReadDest(x, c)
    ensures RestInv(w)
  {
  }

  lemma InputRests(t: Tunnel, a: Action)
    requires AllRest(t) && Enabled(t, a)
    requires a.UserBytes? || a.UserHangUp? || a.DestBytes? || a.DestHangUp?
    ensures AllRest(Apply(t, a))
  {
    var u := Apply(t, a);
    forall j: nat | j < |u.srv.sess| ensures RestInv(ViewOf(u, j)) {
      assert RestInv(ViewOf(t, j));
      if j != a.i {
        assert ViewOf(u, j) == ViewOf(t, j);
      } else if a.UserBytes? || a.UserHangUp? {
        UserInputRests(ViewOf(t, j), ViewOf(u, j));
      } else {
        DestInputRests(ViewOf(t, j), ViewOf(u, j));
      }
    }
  }

  lemma CutToNodeRests(v: View, w: View)
    requires RestInv(v) && w == v.(upS := false, toNode := w.toNode) && w.toNode <= v.toNode
    ensures RestInv(w)
  {
    assert forall m <- w.toNode :: m in v.toNode;
  }

  lemma CutToServerRests(v: View, w: View)
    requires RestInv(v) && w == v.(upN := false, toServer := w.toServer) && w.toServer <= v.toServer
    ensures RestInv(w)
  {
    assert w.toServer == v.toServer[..|w.toServer|];
    assert w == v.(upN := false, toServer := v.toServer[..|w.toServer|]);
    CutEnd(v, |w.toServer|);
  }

  lemma BreakRests(t: Tunnel, a: Action)
    requires AllRest(t) && Enabled(t, a) && (a.BreakToNode? || a.BreakToServer?)
    ensures AllRest(Apply(t, a))
  {
    var u := Apply(t, a);
    forall j: nat | j < |u.srv.sess| ensures RestInv(ViewOf(u, j)) {
      assert RestInv(ViewOf(t, j));
      if a.BreakToNode? {
        OfSessionTake(t.srv.out, a.keep, V4(j));
        CutToNodeRests(ViewOf(t, j), ViewOf(u, j));
      } else {
        OfSessionTake(t.node.out, a.keep, V4(j));
        CutToServerRests(ViewOf(t, j), ViewOf(u, j));
      }
    }
  }

  lemma StepRests(t: Tunnel, a: Action)
    requires Inv(t) && AllRest(t) && Enabled(t, a)
    ensures AllRest(Apply(t, a))
  {
    match a
    case Accept(extra) => AcceptRests(t, extra);
    case UserBytes(_, _) => InputRests(t, a);
    case UserHangUp(_) => InputRests(t, a);
    case DestBytes(_, _) => InputRests(t, a);
    case DestHangUp(_) => InputRests(t, a);
    case BreakToNode(_) => BreakRests(t, a);
    case BreakToServer(_) => BreakRests(t, a);
    case ServerStep(_) => OwnStepRests(t, a);
    case NodeStep(_, _) => OwnStepRests(t, a);
    case DeliverToNode(k) => DeliverToNodeRests(t, k);
    case DeliverToServer(n) => DeliverToServerRests(t, n);
    case _ =>
      forall j: nat | j < |t.srv.sess| ensures RestInv(ViewOf(Apply(t, a), j)) {
        UdpView(t, a, j);
      }
  }

  lemma {:induction false} RunRests(t: Tunnel, run: seq<Action>)
    requires Inv(t) && AllRest(t) && ValidRun(t, run)
    ensures Inv(After(t, run)) && AllRest(After(t, run))
    decreases |run|
  {
    if run != [] {
      StepKeepsInv(t, run[0]);
      StepRests(t, run[0]);
      RunRests(Apply(t, run[0]), run[1..]);
    }
  }
}
