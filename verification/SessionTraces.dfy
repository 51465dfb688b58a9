/** Two runs that show why the theorems about sessions carry their provisos. Both use a single session. */
module SessionTraces {
  import opened Prelude
  import opened TunnelMessages
  import opened SessionProtocol
  import opened SessionSteps
  import opened SessionTheorems
  import S = ServerTunnel
  import N = NodeTunnel

  ghost predicate Reachable(t: Tunnel) { exists run :: ValidRun(START, run) && After(START, run) == t }

  lemma {:induction false} AfterSnoc(t: Tunnel, run: seq<Action>, a: Action)
    requires ValidRun(t, run) && Enabled(After(t, run), a)
    ensures ValidRun(t, run + [a]) && After(t, run + [a]) == Apply(After(t, run), a)
    decreases |run|
  {
    if run == [] {
      assert run + [a] == [a] && [a][1..] == [];
      assert ValidRun(Apply(t, a), []);
    } else {
      assert (run + [a])[1..] == run[1..] + [a];
      AfterSnoc(Apply(t, run[0]), run[1..], a);
    }
  }

  lemma ReachStep(t: Tunnel, a: Action)
    requires Reachable(t) && Enabled(t, a)
    ensures Reachable(Apply(t, a))
  {
    var run :| ValidRun(START, run) && After(START, run) == t;
    AfterSnoc(START, run, a);
  }

  /** The tunnel whose only session is this one. */
  function Solo(v: View): Tunnel {
    var sid := V4(0);
    Tunnel(S.Server([v.s], if v.waiting then {sid} else {}, if v.stored then map[sid := S.Tcp] else map[],
                    v.toNode, v.upS, false),
           N.Node(if v.n.Some? then map[0 := v.n.value] else map[], if v.mapped then {sid} else {}, {},
                  v.toServer, v.upN))
  }

  ghost predicate SoloReached(v: View) { Reachable(Solo(v)) }

  lemma SoloServer(v: View)
    requires SoloReached(v) && S.CanRun(v.s)
    ensures SoloReached(ServerRun(v, V4(0)))
  {
    ReachStep(Solo(v), ServerStep(0));
    assert Apply(Solo(v), ServerStep(0)) == Solo(ServerRun(v, V4(0)));
  }

  lemma SoloNode(v: View)
    requires SoloReached(v) && v.n.Some? && N.CanRun(v.n.value)
    ensures SoloReached(NodeRun(v, V4(0), true))
  {
    ReachStep(Solo(v), NodeStep(0, true));
    assert Apply(Solo(v), NodeStep(0, true)) == Solo(NodeRun(v, V4(0), true));
  }

  lemma SoloToServer(v: View, n: nat)
    requires SoloReached(v) && v.toServer != [] && v.toServer[0].sid == V4(0) && !v.toServer[0].UdpData?
    ensures SoloReached(ServerTake(v, n))
  {
    ReachStep(Solo(v), DeliverToServer(n));
    assert Apply(Solo(v), DeliverToServer(n)) == Solo(ServerTake(v, n));
  }

  lemma SoloToNode(v: View)
    requires SoloReached(v) && v.toNode == [Create(V4(0))] && v.n.None?
    ensures SoloReached(v.(toNode := [], n := Some(N.NEW_SESSION)))
  {
    ReachStep(Solo(v), DeliverToNode(0));
    assert Apply(Solo(v), DeliverToNode(0)) == Solo(v.(toNode := [], n := Some(N.NEW_SESSION)));
  }

  lemma SoloDest(v: View, chunk: Bytes)
    requires SoloReached(v) && v.n.Some? && N.CanRead(v.n.value, chunk)
    ensures SoloReached(v.(n := Some(N.ReadDest(v.n.value, chunk))))
  {
    ReachStep(Solo(v), DestBytes(0, chunk));
    assert Apply(Solo(v), DestBytes(0, chunk)) == Solo(v.(n := Some(N.ReadDest(v.n.value, chunk))));
  }

  lemma SoloDestHangUp(v: View)
    requires SoloReached(v) && v.n.Some?
    ensures SoloReached(v.(n := Some(v.n.value.(conn := v.n.value.conn.(eof := true)))))
  {
    ReachStep(Solo(v), DestHangUp(0));
    assert Apply(Solo(v), DestHangUp(0)) == Solo(v.(n := Some(v.n.value.(conn := v.n.value.conn.(eof := true)))));
  }

  /** The server has taken the node's reply and is about to store the session; the node is already pumping. */
  const ACCEPTED := View(true, true, S.NewSession([]).(pc := S.StoreSession, seen := S.Seen(0, 0, 0, 0, 1)),
                         Some(N.NEW_SESSION.(pc := N.Pumping)), [], [], false, false, true)

  lemma AcceptedReached()
    ensures SoloReached(ACCEPTED)
  {
    assert ValidRun(START, []) && After(START, []) == START;
    ReachStep(START, Accept([]));
    var v0 := View(true, true, S.NewSession([]), None, [], [], true, false, false);
    assert Apply(START, Accept([])) == Solo(v0);
    SoloServer(v0);
    var v1 := v0.(s := v0.s.(pc := S.EnterSelect), toNode := [Create(V4(0))]);
    SoloServer(v1);
    var v2 := v1.(s := v0.s.(pc := S.Select));
    SoloToNode(v2);
    var v3 := v2.(toNode := [], n := Some(N.NEW_SESSION));
    SoloNode(v3);
    var v4 := v3.(n := Some(N.NEW_SESSION.(pc := N.Dialing)));
    SoloNode(v4);
    var v5 := v4.(n := Some(N.NEW_SESSION.(pc := N.Connected)), mapped := true);
    SoloNode(v5);
    var v6 := v5.(n := Some(N.NEW_SESSION.(pc := N.Pumping)), toServer := [Reply(V4(0), true)]);
    SoloToServer(v6, 0);
    var v7 := v6.(s := v0.s.(pc := S.Replied(true), seen := ACCEPTED.s.seen), toServer := []);
    SoloServer(v7);
    var v8 := v7.(s := v7.s.(pc := S.WriteExtra), waiting := false);
    SoloServer(v8);
  }

  const PUMPING := N.NEW_SESSION.(pc := N.Pumping)

  /** The destination's first chunk was handled before the server stored the session, and answered with CLOSE. */
  const OVERTAKEN := ACCEPTED.(s := ACCEPTED.s.(seen := S.Seen(1, 1, 1, 0, 1)), toNode := [Close(V4(0))],
                               n := Some(PUMPING.(chunks := [[1]], sent := [[1]])))

  lemma OvertakenReached()
    ensures SoloReached(OVERTAKEN)
  {
    AcceptedReached();
    var v1 := ACCEPTED.(n := Some(PUMPING.(hand := [1], chunks := [[1]])));
    assert v1.n.value == N.ReadDest(PUMPING, [1]);
    SoloDest(ACCEPTED, [1]);
    var v2 := v1.(n := OVERTAKEN.n, toServer := [Data(V4(0), [1])]);
    assert NodeRun(v1, V4(0), true) == v2;
    SoloNode(v1);
    assert ServerTake(v2, 1) == OVERTAKEN;
    SoloToServer(v2, 1);
  }

  /** A first chunk that overtakes the storing of the session is lost while the second one is delivered: what the
      user receives need not be a prefix of what the destination sent. */
  lemma FirstChunkCanBeLost()
    ensures exists t :: Reachable(t) && |t.srv.sess| == 1 && 0 in t.node.sess &&
                        t.node.sess[0].chunks == [[1], [2]] && t.srv.sess[0].conn.written == [2]
  {
    OvertakenReached();
    var v1 := OVERTAKEN.(s := OVERTAKEN.s.(pc := S.Pump), stored := true);
    assert ServerRun(OVERTAKEN, V4(0)) == v1;
    SoloServer(OVERTAKEN);
    var n2 := OVERTAKEN.n.value.(hand := [2], chunks := [[1], [2]]);
    assert n2 == N.ReadDest(OVERTAKEN.n.value, [2]);
    SoloDest(v1, [2]);
    var v2 := v1.(n := Some(n2));
    var v3 := v2.(n := Some(n2.(hand := [], sent := [[1], [2]])), toServer := [Data(V4(0), [2])]);
    assert NodeRun(v2, V4(0), true) == v3;
    SoloNode(v2);
    var v4 := v3.(toServer := [], s := v1.s.(conn := NEW_CONN.(written := [2]), seen := S.Seen(2, 1, 1, 0, 1)));
    assert ServerTake(v3, 1) == v4;
    SoloToServer(v3, 1);
    assert Reachable(Solo(v4));
  }

  /** The destination hung up and the node's CLOSE was handled before the server stored the session. */
  const FORGOTTEN := ACCEPTED.(s := ACCEPTED.s.(seen := S.Seen(0, 0, 0, 1, 1)),
                               n := Some(PUMPING.(pc := N.Leaving, told := true, conn := NEW_CONN.(eof := true))))

  lemma ForgottenReached()
    ensures SoloReached(FORGOTTEN)
  {
    AcceptedReached();
    SoloDestHangUp(ACCEPTED);
    var v1 := ACCEPTED.(n := Some(PUMPING.(conn := NEW_CONN.(eof := true))));
    var v2 := v1.(n := FORGOTTEN.n, toServer := [Close(V4(0))]);
    assert NodeRun(v1, V4(0), true) == v2;
    SoloNode(v1);
    assert ServerTake(v2, 0) == FORGOTTEN;
    SoloToServer(v2, 0);
  }

  /** The server pumps the session, and the node's goroutine is gone. */
  const DANGLING := FORGOTTEN.(s := FORGOTTEN.s.(pc := S.Pump), stored := true, mapped := false,
                               n := Some(FORGOTTEN.n.value.(pc := N.Gone,
                                                            conn := NEW_CONN.(eof := true, open := false))))

  lemma DanglingReached()
    ensures SoloReached(DANGLING)
  {
    ForgottenReached();
    var v1 := FORGOTTEN.(s := FORGOTTEN.s.(pc := S.Pump), stored := true);
    assert ServerRun(FORGOTTEN, V4(0)) == v1;
    SoloServer(FORGOTTEN);
    var v2 := v1.(n := Some(DANGLING.n.value.(pc := N.Closed)));
    assert NodeRun(v1, V4(0), true) == v2;
    SoloNode(v1);
    assert NodeRun(v2, V4(0), true) == DANGLING;
    SoloNode(v2);
  }

  /** A CLOSE that overtakes the storing of the session is ignored: both programs come to rest with the user's
      connection still open and pumped, although the node's session is gone. */
  lemma CloseCanBeLost()
    ensures exists t :: Reachable(t) && AtRest(t) && t.srv.up && t.node.up && |t.srv.sess| == 1 && 0 in t.node.sess &&
                        t.srv.sess[0].pc.Pump? && t.srv.sess[0].conn.open && t.node.sess[0].pc.Gone?
  {
    DanglingReached();
    assert Reachable(Solo(DANGLING)) && AtRest(Solo(DANGLING));
  }
}
