/** Left to themselves, with no new bytes from users and destinations, the two programs come to rest. */
module SessionMeasure {
  import opened Prelude
  import opened TunnelMessages
  import opened SessionProtocol
  import opened SessionInvariant
  import S = ServerTunnel
  import N = NodeTunnel

  /** How many steps a queued message can still cause: a CREATE a whole node goroutine, a DATA message from the node
      a CLOSE in return, any other message nothing beyond its own delivery. */
  function Weight(m: Msg, toNode: bool): nat {
    match m
    case Create(_) => 9
    case Data(_, _) => if toNode then 1 else 2
    case _ => 1
  }

  function QueueWeight(q: seq<Msg>, toNode: bool): nat {
    if q == [] then 0 else Weight(q[0], toNode) + QueueWeight(q[1..], toNode)
  }

  function ServerRank(x: S.ServerSession): nat {
    match x.pc
    case WriteCreate => 18
    case EnterSelect => 8
    case Select => 7
    case Replied(_) => 6
    case Aborted => 1
    case WriteExtra => 5
    case StoreSession => 3
    case Pump => if x.hand == [] then 2 else 4
    case Leaving => 1
    case _ => 0
  }

  function NodeRank(x: N.NodeSession): nat {
    match x.pc
    case Spawned => 8
    case Dialing => 7
    case Connected => 6
    case Pumping => if x.hand == [] then 4 else 7
    case Leaving => 2
    case Closed => 1
    case _ => 0
  }

  function ServerRanks(xs: seq<S.ServerSession>): nat {
    if xs == [] then 0 else ServerRanks(xs[..|xs| - 1]) + ServerRank(xs[|xs| - 1])
  }

  function NodeRanks(m: map<nat, N.NodeSession>, n: nat): nat {
    if n == 0 then 0 else NodeRanks(m, n - 1) + (if n - 1 in m then NodeRank(m[n - 1]) else 0)
  }

  function Measure(t: Tunnel): nat {
    QueueWeight(t.srv.out, true) + QueueWeight(t.node.out, false) +
    ServerRanks(t.srv.sess) + NodeRanks(t.node.sess, |t.srv.sess|)
  }

  lemma {:induction false} QueueWeightSnoc(q: seq<Msg>, m: Msg, toNode: bool)
    ensures QueueWeight(q + [m], toNode) == QueueWeight(q, toNode) + Weight(m, toNode)
  {
    if q == [] {
      assert q + [m] == [m];
      assert QueueWeight([m][1..], toNode) == 0;
    } else {
      assert (q + [m])[1..] == q[1..] + [m];
      QueueWeightSnoc(q[1..], m, toNode);
    }
  }

  lemma {:induction false} ServerRanksUpdate(xs: seq<S.ServerSession>, i: nat, x: S.ServerSession)
    requires i < |xs|
    ensures ServerRanks(xs[i := x]) + ServerRank(xs[i]) == ServerRanks(xs) + ServerRank(x)
  {
    var k := |xs| - 1;
    if i == k {
      assert xs[i := x][..k] == xs[..k];
    } else {
      assert xs[i := x][..k] == xs[..k][i := x];
      ServerRanksUpdate(xs[..k], i, x);
    }
  }

  lemma {:induction false} NodeRanksUpdate(m: map<nat, N.NodeSession>, n: nat, i: nat, x: N.NodeSession)
    requires i < n
    ensures NodeRanks(m[i := x], n) + (if i in m then NodeRank(m[i]) else 0) == NodeRanks(m, n) + NodeRank(x)
  {
    if i == n - 1 {
      NodeRanksFrame(m, n - 1, i, x);
    } else {
      NodeRanksUpdate(m, n - 1, i, x);
    }
  }

  lemma {:induction false} NodeRanksFrame(m: map<nat, N.NodeSession>, n: nat, i: nat, x: N.NodeSession)
    requires n <= i
    ensures NodeRanks(m[i := x], n) == NodeRanks(m, n)
  {
    if n > 0 {
      NodeRanksFrame(m, n - 1, i, x);
    }
  }

  function EmitWeight(m: Option<Msg>, toNode: bool): nat {
    if m.Some? then Weight(m.value, toNode) else 0
  }

  lemma ServerCommitMeasure(t: Tunnel, i: nat, e: S.Effect)
    requires i < |t.srv.sess|
    ensures Measure(t.(srv := S.Commit(t.srv, i, e))) + ServerRank(t.srv.sess[i]) <=
            Measure(t) + ServerRank(e.x) + EmitWeight(e.emit, true)
  {
    ServerRanksUpdate(t.srv.sess, i, e.x);
    if e.emit.Some? {
      QueueWeightSnoc(t.srv.out, e.emit.value, true);
    }
  }

  lemma NodeCommitMeasure(t: Tunnel, i: nat, e: N.Effect)
    requires i in t.node.sess && i < |t.srv.sess|
    ensures Measure(t.(node := N.Commit(t.node, i, e))) + NodeRank(t.node.sess[i]) <=
            Measure(t) + NodeRank(e.x) + EmitWeight(e.emit, false)
  {
    NodeRanksUpdate(t.node.sess, |t.srv.sess|, i, e.x);
    if e.emit.Some? {
      QueueWeightSnoc(t.node.out, e.emit.value, false);
    }
  }

  lemma ServerRunDescends(x: S.ServerSession, sid: Sid, up: bool, waiting: bool, stored: bool)
    requires S.CanRun(x) && (x.hand != [] ==> x.pc.Pump?)
    ensures var e := S.Run(x, sid, up, waiting, stored);
            ServerRank(e.x) + EmitWeight(e.emit, true) < ServerRank(x)
  {
  }

  lemma NodeRunDescends(x: N.NodeSession, sid: Sid, dialed: bool, mapped: bool)
    requires N.CanRun(x) && (x.hand != [] ==> x.pc.Pumping?)
    ensures var e := N.Run(x, sid, dialed, mapped);
            NodeRank(e.x) + EmitWeight(e.emit, false) < NodeRank(x)
  {
  }

  lemma ServerHandleDescends(x: S.ServerSession, m: Msg, n: nat, waiting: bool, stored: bool)
    ensures var e := S.Handle(x, m, n, waiting, stored);
            ServerRank(e.x) + EmitWeight(e.emit, true) < ServerRank(x) + Weight(m, false)
  {
  }

  lemma NodeHandleDescends(x: N.NodeSession, m: Msg, k: nat, mapped: bool)
    ensures var e := N.Handle(x, m, k, mapped);
            NodeRank(e.x) + EmitWeight(e.emit, false) < NodeRank(x) + Weight(m, true)
  {
  }

  lemma DeliverToServerDescends(t: Tunnel, n: nat)
    requires Inv(t) && Enabled(t, DeliverToServer(n))
    ensures Measure(Apply(t, DeliverToServer(n))) < Measure(t)
  {
    var m, u := t.node.out[0], t.(node := t.node.(out := t.node.out[1..]));
    DeliveredToServer(t, n);
    assert Measure(t) == Measure(u) + Weight(m, false);
    if !m.UdpData? {
      var i := m.sid.index;
      ServerHandleDescends(t.srv.sess[i], m, n, m.sid in t.srv.waitList, m.sid in t.srv.proxys);
      ServerCommitMeasure(u, i, ServerHandles(t, n));
    }
  }

  lemma DeliverToNodeDescends(t: Tunnel, k: nat)
    requires Inv(t) && Enabled(t, DeliverToNode(k))
    ensures Measure(Apply(t, DeliverToNode(k))) < Measure(t)
  {
    var m, u := t.srv.out[0], t.(srv := t.srv.(out := t.srv.out[1..]));
    DeliveredToNode(t, k);
    assert Measure(t) == Measure(u) + Weight(m, true);
    if m.UdpData? {
    } else if N.Known(t.node, m.sid) {
      var i := m.sid.index;
      NodeHandleDescends(t.node.sess[i], m, k, m.sid in t.node.sessions);
      NodeCommitMeasure(u, i, NodeHandles(t, k));
    } else if m.Create? {
      NodeRanksUpdate(u.node.sess, |u.srv.sess|, m.sid.index, N.NEW_SESSION);
    }
  }

  /** Every step that the programs take by themselves, every delivery included, lowers the measure. */
  lemma InternalStepDescends(t: Tunnel, a: Action)
    requires Inv(t) && Enabled(t, a) && Internal(a)
    ensures Measure(Apply(t, a)) < Measure(t)
  {
    match a
    case ServerStep(i) =>
      assert SessInv(ViewOf(t, i));
      var e := S.Run(t.srv.sess[i], V4(i), t.srv.up, V4(i) in t.srv.waitList, V4(i) in t.srv.proxys);
      ServerRunDescends(t.srv.sess[i], V4(i), t.srv.up, V4(i) in t.srv.waitList, V4(i) in t.srv.proxys);
      ServerCommitMeasure(t, i, e);
    case NodeStep(i, dialed) =>
      assert SessInv(ViewOf(t, i));
      NodeRunDescends(t.node.sess[i], V4(i), dialed, V4(i) in t.node.sessions);
      NodeCommitMeasure(t, i, N.Run(t.node.sess[i], V4(i), dialed, V4(i) in t.node.sessions));
    case DeliverToServer(n) => DeliverToServerDescends(t, n);
    case DeliverToNode(k) => DeliverToNodeDescends(t, k);
  }

  /** Without new input a run ends within `Measure(t)` steps: messages cannot bounce between the two ends for ever. */
  lemma {:induction false} Quiesces(t: Tunnel, run: seq<Action>)
    requires Inv(t) && ValidRun(t, run) && forall a <- run :: Internal(a)
    ensures |run| + Measure(After(t, run)) <= Measure(t)
    decreases |run|
  {
    if run != [] {
      assert run[0] in run;
      InternalStepDescends(t, run[0]);
      StepKeepsInv(t, run[0]);
      Quiesces(Apply(t, run[0]), run[1..]);
    }
  }
}
