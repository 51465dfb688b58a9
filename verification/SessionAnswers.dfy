/** Every CREATE is answered: what the replies in flight say about the node, and where the answer is until it has been
    handled. */
module SessionAnswers {
  import opened Prelude
  import opened TunnelMessages
  import opened SessionProtocol
  import opened SessionSteps
  import S = ServerTunnel
  import N = NodeTunnel

  predicate ReplyIn(q: seq<Msg>, ok: bool) { exists m <- q :: m.Reply? && m.ok == ok }

  predicate CreateIn(q: seq<Msg>) { exists m <- q :: m.Create? }

  lemma ReplyInQueue(q: seq<Msg>, up: bool, m: Option<Msg>, ok: bool)
    ensures ReplyIn(Queue(q, up, m), ok) <==> ReplyIn(q, ok) || (up && m.Some? && m.value.Reply? && m.value.ok == ok)
  {
    if m.Some? && up {
      assert m.value in q + [m.value];
      assert forall x <- q :: x in q + [m.value];
    }
  }

  lemma ReplyInTail(q: seq<Msg>, ok: bool)
    requires q != []
    ensures ReplyIn(q, ok) <==> (q[0].Reply? && q[0].ok == ok) || ReplyIn(q[1..], ok)
  {
    assert q[0] in q && forall m <- q[1..] :: m in q;
    assert forall m <- q :: m == q[0] || m in q[1..];
  }

  lemma CreateInQueue(q: seq<Msg>, up: bool, m: Option<Msg>)
    ensures CreateIn(Queue(q, up, m)) <==> CreateIn(q) || (up && m.Some? && m.value.Create?)
  {
    if m.Some? && up {
      assert m.value in q + [m.value];
      assert forall x <- q :: x in q + [m.value];
    }
  }

  lemma CreateInTail(q: seq<Msg>)
    requires q != []
    ensures CreateIn(q) <==> q[0].Create? || CreateIn(q[1..])
  {
    assert q[0] in q && forall m <- q[1..] :: m in q;
    assert forall m <- q :: m == q[0] || m in q[1..];
  }

  /** The node has decided: it announced the session, or its dial failed. */
  predicate Decided(x: N.NodeSession, ok: bool) { if ok then N.Announced(x.pc) else x.pc.Failed? }

  /** A written CREATE is on its way or has reached the node; the node's decision is on its way or was handled; and no
      reply says anything but that decision. */
  predicate AnswerInv(v: View) {
    && (v.upS && !v.s.pc.WriteCreate? ==> v.n.Some? || CreateIn(v.toNode))
    && (v.n.Some? && v.upN && Decided(v.n.value, true) ==> ReplyIn(v.toServer, true) || v.s.seen.replies > 0)
    && (v.n.Some? && v.upN && Decided(v.n.value, false) ==> ReplyIn(v.toServer, false) || v.s.seen.replies > 0)
    && (forall m <- v.toServer :: m.Reply? ==> v.n.Some? && Decided(v.n.value, m.ok))
    && (v.s.pc.Replied? ==> v.n.Some? && Decided(v.n.value, v.s.pc.ok))
  }

  lemma ServerRunAnswers(v: View, sid: Sid)
    requires AnswerInv(v) && S.CanRun(v.s)
    ensures AnswerInv(ServerRun(v, sid))
  {
    CreateInQueue(v.toNode, v.upS, S.Run(v.s, sid, v.upS, v.waiting, v.stored).emit);
  }

  lemma NodeRunAnswers(v: View, sid: Sid, dialed: bool)
    requires Agreement(v) && AnswerInv(v) && v.n.Some? && N.CanRun(v.n.value)
    ensures AnswerInv(NodeRun(v, sid, dialed))
  {
    var emit := N.Run(v.n.value, sid, dialed, v.mapped).emit;
    ReplyInQueue(v.toServer, v.upN, emit, true);
    ReplyInQueue(v.toServer, v.upN, emit, false);
  }

  lemma ServerTakeAnswers(v: View, n: nat)
    requires AnswerInv(v) && v.toServer != []
    ensures AnswerInv(ServerTake(v, n))
  {
    ReplyInTail(v.toServer, true);
    ReplyInTail(v.toServer, false);
    assert v.toServer[0] in v.toServer && forall m <- v.toServer[1..] :: m in v.toServer;
    CreateInQueue(v.toNode, v.upS, S.Handle(v.s, v.toServer[0], n, v.waiting, v.stored).emit);
  }

  lemma NodeTakeAnswers(v: View, k: nat)
    requires Agreement(v) && AnswerInv(v) && v.toNode != []
    ensures AnswerInv(NodeTake(v, k))
  {
    CreateInTail(v.toNode);
  }
}
