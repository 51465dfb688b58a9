/** What holds in every run of the session protocol, whatever the interleaving of sessions, dials, timeouts, closes and
    link failures. */
module SessionTheorems {
  import opened Prelude
  import opened TunnelMessages
  import opened SessionProtocol
  import opened SessionInvariant
  import opened SessionAnswers
  import opened SessionEnds
  import opened SessionRest
  import S = ServerTunnel
  import N = NodeTunnel

  lemma Reached(run: seq<Action>)
    requires ValidRun(START, run)
    ensures Inv(After(START, run)) && AllRest(After(START, run))
  {
    RunRests(START, run);
  }

  /** The destination has received a prefix of the bytes left over from the handshake followed by the user's bytes. */
  lemma UpstreamPrefix(run: seq<Action>, i: nat)
    requires ValidRun(START, run)
    requires var t := After(START, run); i < |t.srv.sess| && i in t.node.sess
    ensures var t := After(START, run);
            t.node.sess[i].conn.written <= t.srv.sess[i].extra + t.srv.sess[i].read
  {
    var t := After(START, run);
    Reached(run);
    var v := ViewOf(t, i);
    assert SessInv(v);
    var p := UpPipe(v);
    ConcatSlice(p.sent, 0, p.handled, |p.sent|);
    assert p.sent[0..|p.sent|] == p.sent;
    assert p.written <= Concat(p.sent);
    if p.sent == [] {
      assert p.written == [];
    } else {
      assert !Silent(v.s.pc);
    }
  }

  lemma ConcatGrows(chunks: seq<Bytes>, k: nat)
    requires k <= |chunks| && forall c <- chunks :: c != []
    ensures |Concat(chunks)| == |Concat(chunks[..k])| + |Concat(chunks[k..])|
    ensures k > 0 ==> |Concat(chunks[k..])| < |Concat(chunks)|
  {
    ConcatSlice(chunks, 0, k, |chunks|);
    assert chunks[0..|chunks|] == chunks && chunks[0..k] == chunks[..k] && chunks[k..|chunks|] == chunks[k..];
    if k > 0 {
      assert chunks[k - 1] in chunks;
      ConcatOne(chunks, 0, k - 1);
      assert Concat(chunks[..k]) == Concat(chunks[0..k - 1]) + chunks[k - 1];
    }
  }

  /** The user has received a prefix of what the destination sent, once the first `skipped` chunks are left out. The
      skipped chunks are those whose DATA message was handled before the server stored the session; they are lost for
      good. */
  lemma DownstreamPrefix(run: seq<Action>, i: nat)
    requires ValidRun(START, run)
    requires var t := After(START, run); i < |t.srv.sess| && i in t.node.sess
    ensures var t := After(START, run);
            var x, chunks := t.srv.sess[i], t.node.sess[i].chunks;
            && x.seen.skipped <= |chunks|
            && x.conn.written <= Concat(chunks[x.seen.skipped..])
            && (x.seen.skipped == 0 ==> x.conn.written <= Concat(chunks))
            && (x.seen.skipped > 0 ==> |x.conn.written| < |Concat(chunks)|)
  {
    var t := After(START, run);
    Reached(run);
    var v := ViewOf(t, i);
    assert SessInv(v) && RestInv(v);
    var p, n := DownPipe(v), v.n.value;
    assert p.sent <= n.chunks;
    assert p.sent[p.skipped..p.handled] == n.chunks[p.skipped..p.handled];
    PartOfTheRest(p.written, n.chunks, p.skipped, p.handled);
    PartOfAll(p.written, n.chunks, p.skipped);
  }

  lemma PartOfTheRest(written: Bytes, chunks: seq<Bytes>, skipped: nat, handled: nat)
    requires skipped <= handled <= |chunks| && written <= Concat(chunks[skipped..handled])
    ensures written <= Concat(chunks[skipped..])
  {
    ConcatSlice(chunks, skipped, handled, |chunks|);
    assert chunks[skipped..|chunks|] == chunks[skipped..];
    PrefixTrans(written, Concat(chunks[skipped..handled]), Concat(chunks[skipped..]));
  }

  lemma PartOfAll(written: Bytes, chunks: seq<Bytes>, skipped: nat)
    requires skipped <= |chunks| && written <= Concat(chunks[skipped..])
    requires forall c <- chunks :: c != []
    ensures if skipped == 0 then written <= Concat(chunks) else |written| < |Concat(chunks)|
  {
    if skipped == 0 {
      assert chunks[0..] == chunks;
    } else {
      ConcatGrows(chunks, skipped);
    }
  }

  /** A session that the server holds was stored and answered with success by the node; a session that was refused
      or has ended is in neither of the server's tables. */
  lemma SessionAgreement(run: seq<Action>, i: nat)
    requires ValidRun(START, run)
    requires i < |After(START, run).srv.sess|
    ensures var t := After(START, run);
            && (V4(i) in t.srv.proxys ==> i in t.node.sess && N.Announced(t.node.sess[i].pc))
            && (V4(i) in t.srv.waitList ==> V4(i) !in t.srv.proxys)
            && (t.srv.sess[i].pc.Refused? || t.srv.sess[i].pc.Done? ==>
                  V4(i) !in t.srv.proxys && V4(i) !in t.srv.waitList)
            && (t.srv.sess[i].pc.Refused? ==> t.srv.sess[i].sent == [] && t.srv.sess[i].conn.written == [])
  {
    Reached(run);
    assert SessInv(ViewOf(After(START, run), i));
  }

  /** No handler ever finds an entry of the wrong kind in the session table. */
  lemma NoWrongKind(run: seq<Action>)
    requires ValidRun(START, run)
    ensures !After(START, run).srv.panicked
    ensures var t := After(START, run);
            forall sid <- t.srv.proxys :: t.srv.proxys[sid].Tcp? <==> sid.V4?
  {
    Reached(run);
  }

  /** The node never receives two CREATE messages for one session, so it never dials twice. */
  lemma CreateArrivesOnce(run: seq<Action>)
    requires ValidRun(START, run)
    requires var out := After(START, run).srv.out; out != [] && out[0].Create?
    ensures var t := After(START, run); var sid := t.srv.out[0].sid;
            sid.V4? && sid.index !in t.node.sess && Create(sid) !in t.srv.out[1..]
  {
    var t := After(START, run);
    Reached(run);
    var sid := t.srv.out[0].sid;
    assert t.srv.out[0] in t.srv.out;
    var v := ViewOf(t, sid.index);
    assert SessInv(v) && v.toNode[0] == t.srv.out[0];
    assert v.toNode[0] in v.toNode;
    assert v.toNode == [Create(sid)] + OfSession(t.srv.out[1..], sid);
    if Create(sid) in t.srv.out[1..] {
      InOfSession(t.srv.out[1..], Create(sid));
    }
  }

  lemma {:induction false} InOfSession(q: seq<Msg>, m: Msg)
    requires m in q
    ensures m in OfSession(q, m.sid)
  {
    if q[0] != m {
      InOfSession(q[1..], m);
    }
  }

  /** A message is answered only if it is DATA from the node that finds no session, and then by one CLOSE; a CLOSE is
      never answered, at either end. */
  lemma OnlyStrayDataAnswered(t: Tunnel, k: nat)
    ensures t.node.out != [] ==>
              var m := t.node.out[0];
              Apply(t, DeliverToServer(k)).srv.out ==
              t.srv.out + if m.Data? && m.sid !in t.srv.proxys && t.srv.up then [Close(m.sid)] else []
    ensures t.srv.out != [] ==> Apply(t, DeliverToNode(k)).node.out == t.node.out
  {
  }

  /** A reply decides a create: if the session is waiting for it, one step later it is established after a success and
      refused after a failure, and either way it has left the wait list. */
  lemma ReplyDecides(t: Tunnel, i: nat, ok: bool, k: nat)
    requires i < |t.srv.sess| && t.srv.sess[i].pc.Select? && V4(i) in t.srv.waitList
    requires V4(i) !in t.srv.proxys && t.node.out != [] && t.node.out[0] == Reply(V4(i), ok)
    ensures var u := Apply(t, DeliverToServer(k));
            && Enabled(u, ServerStep(i))
            && var w := Apply(u, ServerStep(i));
               && (if ok then w.srv.sess[i].pc.WriteExtra? else w.srv.sess[i].pc.Refused?)
               && w.srv.waitList == t.srv.waitList - {V4(i)}
               && w.srv.proxys == t.srv.proxys && w.srv.out == t.srv.out && w.node.out == t.node.out[1..]
  {
  }

  /** Without a reply, the time-out refuses the create. */
  lemma TimeoutRefuses(t: Tunnel, i: nat)
    requires i < |t.srv.sess| && t.srv.sess[i].pc.Select? && V4(i) in t.srv.waitList
    ensures Enabled(t, ServerStep(i))
    ensures var u := Apply(t, ServerStep(i));
            && Enabled(u, ServerStep(i))
            && Apply(u, ServerStep(i)).srv.sess[i].pc.Refused?
            && V4(i) !in Apply(u, ServerStep(i)).srv.waitList
  {
  }

  /** Over a broken link the create is refused at once, without waiting for a reply. */
  lemma BrokenLinkRefuses(t: Tunnel, i: nat)
    requires i < |t.srv.sess| && t.srv.sess[i].pc.WriteCreate? && V4(i) in t.srv.waitList && !t.srv.up
    ensures Enabled(t, ServerStep(i))
    ensures var u := Apply(t, ServerStep(i));
            && Enabled(u, ServerStep(i))
            && Apply(u, ServerStep(i)).srv.sess[i].pc.Refused?
            && Apply(u, ServerStep(i)).srv.out == t.srv.out
            && V4(i) !in Apply(u, ServerStep(i)).srv.waitList
  {
  }

  /** A reply that nobody is receiving, because it came too early or too late, changes neither the session's state nor
      its connection nor the tables. */
  lemma UnawaitedReplyIsDropped(t: Tunnel, i: nat, ok: bool, k: nat)
    requires i < |t.srv.sess| && !(t.srv.sess[i].pc.Select? && V4(i) in t.srv.waitList)
    requires t.node.out != [] && t.node.out[0] == Reply(V4(i), ok)
    ensures var u := Apply(t, DeliverToServer(k));
            && u.srv.sess[i].pc == t.srv.sess[i].pc && u.srv.sess[i].conn == t.srv.sess[i].conn
            && u.srv.waitList == t.srv.waitList && u.srv.proxys == t.srv.proxys && u.srv.out == t.srv.out
  {
  }

  /** In every run, over a working link, every CREATE that was written is on its way, or its node session is at work on
      it, or has decided; the decision is on its way to the server or was handled there. A failed dial is answered with
      a refusal and an established session with a success, and with nothing else. */
  lemma CreateIsAnswered(run: seq<Action>, i: nat)
    requires ValidRun(START, run)
    requires var t := After(START, run); t.srv.up && t.node.up && i < |t.srv.sess| && !t.srv.sess[i].pc.WriteCreate?
    ensures var t := After(START, run); var replies := t.srv.sess[i].seen.replies;
            && (i !in t.node.sess ==> Create(V4(i)) in t.srv.out)
            && (i in t.node.sess ==>
                  var pc := t.node.sess[i].pc;
                  && (pc.Failed? ==> Reply(V4(i), false) in t.node.out || replies > 0)
                  && (N.Announced(pc) ==> Reply(V4(i), true) in t.node.out || replies > 0)
                  && (Reply(V4(i), false) in t.node.out || t.srv.sess[i].pc == S.Replied(false) ==> pc.Failed?)
                  && (Reply(V4(i), true) in t.node.out || t.srv.sess[i].pc == S.Replied(true) ==> N.Announced(pc)))
  {
    var t := After(START, run);
    Reached(run);
    var v := ViewOf(t, i);
    assert SessInv(v) && RestInv(v);
    ReplyInView(t, i, true);
    ReplyInView(t, i, false);
    if CreateIn(v.toNode) {
      var m :| m in v.toNode && m.Create?;
      assert m == Create(V4(i));
    }
  }

  lemma ReplyInView(t: Tunnel, i: nat, ok: bool)
    requires i < |t.srv.sess|
    ensures ReplyIn(ViewOf(t, i).toServer, ok) <==> Reply(V4(i), ok) in t.node.out
  {
    if Reply(V4(i), ok) in t.node.out {
      InOfSession(t.node.out, Reply(V4(i), ok));
    }
    if ReplyIn(ViewOf(t, i).toServer, ok) {
      var m :| m in ViewOf(t, i).toServer && m.Reply? && m.ok == ok;
      assert m == Reply(V4(i), ok);
    }
  }

  /** In every run, a session that has ended has left no connection open, at either end. */
  lemma EndedIsClosed(run: seq<Action>, i: nat)
    requires ValidRun(START, run) && i < |After(START, run).srv.sess|
    ensures var t := After(START, run);
            && (t.srv.sess[i].pc.Done? ==> !t.srv.sess[i].conn.open)
            && (i in t.node.sess && t.node.sess[i].pc.Gone? ==> !t.node.sess[i].conn.open)
  {
    Reached(run);
    assert RestInv(ViewOf(After(START, run), i));
  }

  /** A datagram of a user is put on its way and registers its session. One from outside is passed on only while the
      node has the session, which the user's datagram opens and the expiry ends. */
  lemma DatagramsPass(t: Tunnel, hash: nat, payload: Bytes, k: nat)
    requires forall sid <- t.srv.proxys :: t.srv.proxys[sid].Tcp? ==> sid.V4?
    ensures var u := Apply(t, UserDatagram(hash, payload));
            && u.srv.out == t.srv.out + (if t.srv.up then [UdpData(V5(hash), payload)] else [])
            && u.srv.proxys == t.srv.proxys[V5(hash) := S.Udp] && u.node == t.node
    ensures t.srv.out != [] && t.srv.out[0] == UdpData(V5(hash), payload) ==>
              Apply(t, DeliverToNode(k)).node == t.node.(udps := t.node.udps + {V5(hash)})
    ensures Apply(t, DestDatagram(hash, payload)).node.out ==
            t.node.out + if t.node.up && V5(hash) in t.node.udps then [UdpData(V5(hash), payload)] else []
    ensures V5(hash) !in Apply(t, ExpireNodeUdp(hash)).node.udps
    ensures V5(hash) !in Apply(t, ExpireServerUdp(hash)).srv.proxys
  {
  }

  predicate AtRest(t: Tunnel) {
    && t.srv.out == [] && t.node.out == []
    && (forall i: nat | i < |t.srv.sess| :: !S.CanRun(t.srv.sess[i]))
    && (forall i <- t.node.sess :: !N.CanRun(t.node.sess[i]))
  }

  /** The programs can be at rest only so: otherwise one of them has a step to take. */
  lemma RestOrStep(t: Tunnel)
    ensures AtRest(t) <==> forall a | Internal(a) :: !Enabled(t, a)
  {
    if forall a | Internal(a) :: !Enabled(t, a) {
      assert !Enabled(t, DeliverToNode(0)) && !Enabled(t, DeliverToServer(0));
      forall i: nat | i < |t.srv.sess| ensures !S.CanRun(t.srv.sess[i]) {
        assert !Enabled(t, ServerStep(i));
      }
      forall i <- t.node.sess ensures !N.CanRun(t.node.sess[i]) {
        assert !Enabled(t, NodeStep(i, true));
      }
    }
  }

  /** What was not skipped has reached the user; so all of it has exactly if nothing was skipped. */
  predicate AllButSkipped(x: S.ServerSession, n: N.NodeSession) {
    && x.seen.skipped <= |n.chunks|
    && x.conn.written == Concat(n.chunks[x.seen.skipped..])
    && (x.conn.written == Concat(n.chunks) <==> x.seen.skipped == 0)
  }

  lemma SkippedIsTheRest(x: S.ServerSession, n: N.NodeSession)
    requires x.seen.skipped <= |n.chunks| && x.conn.written == Concat(n.chunks[x.seen.skipped..])
    requires forall c <- n.chunks :: c != []
    ensures AllButSkipped(x, n)
  {
    ConcatGrows(n.chunks, x.seen.skipped);
    assert n.chunks[0..] == n.chunks;
  }

  /** At rest, with the link to the node working, a destination that the node still pumps has received the extra bytes
      and everything that was read from the user, who may have hung up since, unless a write to it failed. */
  lemma UpstreamComplete(run: seq<Action>, i: nat)
    requires ValidRun(START, run)
    requires var t := After(START, run); AtRest(t) && t.srv.up && i < |t.srv.sess| && i in t.node.sess
    requires var t := After(START, run); t.srv.sess[i].pc.Pump? || t.srv.sess[i].pc.Done?
    requires var n := After(START, run).node.sess[i]; n.pc.Pumping? && !n.conn.broken
    ensures var t := After(START, run);
            t.node.sess[i].conn.written == t.srv.sess[i].extra + t.srv.sess[i].read
  {
    var t := After(START, run);
    Reached(run);
    var v := ViewOf(t, i);
    assert SessInv(v) && RestInv(v);
    var p := UpPipe(v);
    assert p.queued == [];
    assert p.sent[0..p.handled] == p.sent;
  }

  /** At rest over a working link, a session that the server still pumps is still pumped by the node exactly if no DATA
      or CLOSE message was handled before the server stored it. Whether it is or not, the user has received everything
      but the skipped chunks, unless a write to the user failed. If it is, the destination has received everything. */
  lemma RestIsComplete(run: seq<Action>, i: nat)
    requires ValidRun(START, run)
    requires var t := After(START, run); AtRest(t) && t.srv.up && t.node.up && i < |t.srv.sess|
    requires After(START, run).srv.sess[i].pc.Pump?
    ensures var t := After(START, run); var x := t.srv.sess[i];
            && i in t.node.sess
            && (t.node.sess[i].pc.Pumping? <==> S.Early(x.seen) == 0)
            && (t.node.sess[i].pc.Pumping? ==> t.node.sess[i].conn.open)
            && (t.node.sess[i].pc.Pumping? && !t.node.sess[i].conn.broken ==>
                  t.node.sess[i].conn.written == x.extra + x.read)
            && (!x.conn.broken ==> AllButSkipped(x, t.node.sess[i]))
  {
    var t := After(START, run);
    Reached(run);
    var v := ViewOf(t, i);
    assert SessInv(v) && RestInv(v);
    var q, n := DownPipe(v), v.n.value;
    assert q.queued == [] && n.chunks == n.sent;
    assert q.sent[q.skipped..q.handled] == n.chunks[q.skipped..];
    if !v.s.conn.broken {
      SkippedIsTheRest(v.s, n);
    }
    if n.pc.Pumping? && !n.conn.broken {
      UpstreamComplete(run, i);
    }
  }

  /** In every run, a session whose connection was closed although its user did not hang up was closed by the node, and
      the user has received everything but the skipped chunks, unless a write to the user failed. */
  lemma ClosedIsComplete(run: seq<Action>, i: nat)
    requires ValidRun(START, run)
    requires i < |After(START, run).srv.sess|
    requires var x := After(START, run).srv.sess[i]; !x.conn.open && !x.conn.eof && !x.conn.broken
    ensures var t := After(START, run);
            && i in t.node.sess && NodeStopped(t.node.sess[i])
            && AllButSkipped(t.srv.sess[i], t.node.sess[i])
            && (S.Early(t.srv.sess[i].seen) == 0 ==> t.srv.sess[i].seen.skipped == 0)
  {
    var t := After(START, run);
    Reached(run);
    var v := ViewOf(t, i);
    assert SessInv(v) && RestInv(v) && ClosedByNode(v.s);
    var n := v.n.value;
    assert n.chunks == n.sent;
    SkippedIsTheRest(v.s, n);
  }

  /** At rest over a working link to the server, a session whose node has stopped is over at the server too, if no
      message was handled before it was stored. If the user did not hang up, it has received every chunk. */
  lemma HangUpArrives(run: seq<Action>, i: nat)
    requires ValidRun(START, run)
    requires var t := After(START, run); AtRest(t) && t.node.up && i < |t.srv.sess| && i in t.node.sess
    requires var t := After(START, run); NodeStopped(t.node.sess[i]) && S.Early(t.srv.sess[i].seen) == 0
    ensures var t := After(START, run); var x := t.srv.sess[i];
            && (x.pc.Done? || x.pc.Refused?)
            && (x.pc.Done? && !x.conn.eof && !x.conn.broken ==> x.conn.written == Concat(t.node.sess[i].chunks))
  {
    var t := After(START, run);
    Reached(run);
    var v := ViewOf(t, i);
    assert SessInv(v) && RestInv(v);
    assert !CloseIn(v.toServer);
    if v.s.pc.Done? && !v.s.conn.eof && !v.s.conn.broken {
      ClosedIsComplete(run, i);
    }
  }

  /** At rest over a working link to the server, an established session whose user did not hang up is over exactly if
      the node told the server so and the message was not handled before the session was stored. The node keeps silent
      if it was the server that closed the session. */
  lemma HangUpArrivesExactly(run: seq<Action>, i: nat)
    requires ValidRun(START, run)
    requires var t := After(START, run); AtRest(t) && t.node.up && i < |t.srv.sess| && !t.srv.sess[i].conn.eof
    requires var x := After(START, run).srv.sess[i]; x.pc.Pump? || x.pc.Done?
    ensures var t := After(START, run);
            && i in t.node.sess
            && (t.srv.sess[i].pc.Done? <==> t.node.sess[i].told && t.srv.sess[i].seen.closes == 0)
            && (NodeStopped(t.node.sess[i]) ==> t.node.sess[i].told || t.node.sess[i].conn.closeFlag)
  {
    var t := After(START, run);
    Reached(run);
    var v := ViewOf(t, i);
    assert SessInv(v) && RestInv(v);
    assert !CloseIn(v.toServer);
  }

  /** The server never tells the node that a user hung up; the node learns it from the answer to its next DATA. At rest
      over a working link to the node, a session that was dialed and whose destination did not hang up is still pumped
      exactly if no DATA of it was handled while the server did not have it stored. */
  lemma LazyCloseExactly(run: seq<Action>, i: nat)
    requires ValidRun(START, run)
    requires var t := After(START, run); AtRest(t) && t.srv.up && i < |t.srv.sess| && i in t.node.sess
    requires var n := After(START, run).node.sess[i]; !n.pc.Failed? && !n.conn.eof
    ensures var t := After(START, run);
            t.node.sess[i].pc.Pumping? <==> t.srv.sess[i].seen.stray == 0
  {
    var t := After(START, run);
    Reached(run);
    var v := ViewOf(t, i);
    assert SessInv(v) && RestInv(v);
    assert !CloseIn(v.toNode);
  }
}
