/** The message handlers of both ends as they run: methods that look a session up in a table and update it in place.
    Each leaves its tunnel in the state that `ServerTunnel` and `NodeTunnel` specify. */
module TunnelHandlers {
  import opened Prelude
  import opened TunnelMessages
  import Protocol = SessionProtocol
  import Invariant = SessionInvariant
  import S = ServerTunnel
  import N = NodeTunnel

  /** Every entry of the server's two tables belongs to a session that it knows, or to UDP. */
  predicate TablesOk(s: S.Server) {
    && (forall sid <- s.waitList :: S.Known(s, sid))
    && (forall sid <- s.proxys :: s.proxys[sid].Tcp? ==> S.Known(s, sid))
  }

  lemma InitialInv()
    ensures Invariant.Inv(Protocol.START)
  {
  }

  /** In every run of the protocol the handlers find the tables as they need them. */
  lemma TablesInEveryRun(run: seq<Protocol.Action>)
    requires Protocol.ValidRun(Protocol.START, run)
    ensures TablesOk(Protocol.After(Protocol.START, run).srv)
  {
    InitialInv();
    Invariant.RunKeepsInv(Protocol.START, run);
  }

  class PopTunnel {
    var sess: seq<S.ServerSession>
    var waitList: set<Sid>
    var proxys: map<Sid, S.Kind>
    var out: seq<Msg>
    var up: bool
    var panicked: bool

    constructor ()
      ensures State() == S.Server([], {}, map[], [], true, false) && TablesOk(State())
    {
      sess, waitList, proxys, out, up, panicked := [], {}, map[], [], true, false;
    }

    function State(): S.Server
      reads this
    {
      S.Server(sess, waitList, proxys, out, up, panicked)
    }

    method Write(m: Msg)
      modifies this
      ensures State() == old(State()).(out := S.Write(old(State()), Some(m)))
    {
      if up {
        out := out + [m];
      }
    }

    method OnMessage(m: Msg, n: nat)
      requires TablesOk(State())
      modifies this
      ensures TablesOk(State())
      ensures State() == S.OnMessage(old(State()), m, n)
    {
      CommitNothing(m.sid);
      match m
      case Create(_) =>
      case Reply(sid, ok) => OnProxySessionCreateReply(sid, ok);
      case Data(sid, data) => OnProxySessionDataFromTunnel(sid, data, n);
      case Close(sid) => OnProxySessionClose(sid);
      case UdpData(sid, data) => OnProxyUDPDataFromTunnel(sid, data);
    }

    /** An effect that changes nothing leaves the state as it is. */
    lemma CommitNothing(sid: Sid)
      ensures S.Known(State(), sid) ==>
                State() == S.Commit(State(), sid.index, S.Effect(sess[sid.index], None, sid in waitList, sid in proxys))
    {
      if S.Known(State(), sid) {
        assert sess[sid.index := sess[sid.index]] == sess;
      }
    }

    method OnProxySessionCreateReply(sid: Sid, ok: bool)
      requires TablesOk(State())
      modifies this
      ensures TablesOk(State())
      ensures State() == S.OnMessage(old(State()), Reply(sid, ok), 0)
    {
      CommitNothing(sid);
      if S.Known(State(), sid) {
        var x := sess[sid.index];
        sess := sess[sid.index := x.(seen := x.seen.(replies := x.seen.replies + 1))];
      }
      if sid in waitList {
        var x := sess[sid.index];
        if x.pc.Select? {
          sess := sess[sid.index := x.(pc := S.Replied(ok))];
        }
      }
    }

    method OnProxySessionDataFromTunnel(sid: Sid, data: Bytes, n: nat)
      requires TablesOk(State())
      modifies this
      ensures TablesOk(State())
      ensures State() == S.OnMessage(old(State()), Data(sid, data), n)
    {
      if sid !in proxys {
        if S.Known(State(), sid) {
          var x := sess[sid.index];
          sess := sess[sid.index := x.(seen := S.SeenUnstored(x))];
        }
        Write(Close(sid));
      } else if proxys[sid].Udp? {
        panicked := true;
      } else {
        var x := sess[sid.index];
        var conn := WriteConn(x.conn, data, n);
        sess := sess[sid.index := x.(conn := conn, seen := x.seen.(handled := x.seen.handled + 1))];
      }
    }

    method OnProxySessionClose(sid: Sid)
      requires TablesOk(State())
      modifies this
      ensures TablesOk(State())
      ensures State() == S.OnMessage(old(State()), Close(sid), 0)
    {
      CommitNothing(sid);
      if sid !in proxys {
        if S.Known(State(), sid) && S.BeforeStore(sess[sid.index].pc) {
          var x := sess[sid.index];
          sess := sess[sid.index := x.(seen := x.seen.(closes := x.seen.closes + 1))];
        }
      } else if proxys[sid].Udp? {
        panicked := true;
      } else {
        var x := sess[sid.index];
        sess := sess[sid.index := x.(conn := CloseConn(x.conn))];
      }
    }

    method OnProxyUDPDataFromTunnel(sid: Sid, data: Bytes)
      modifies this
      ensures State() == S.OnMessage(old(State()), UdpData(sid, data), 0)
    {
      CommitNothing(sid);
      if sid in proxys && proxys[sid].Tcp? {
        panicked := true;
      }
    }
  }

  class ClientTunnel {
    var sess: map<nat, N.NodeSession>
    var proxySessions: set<Sid>
    var proxyUDPs: set<Sid>
    var out: seq<Msg>
    var up: bool

    constructor ()
      ensures State() == N.Node(map[], {}, {}, [], true)
    {
      sess, proxySessions, proxyUDPs, out, up := map[], {}, {}, [], true;
    }

    function State(): N.Node
      reads this
    {
      N.Node(sess, proxySessions, proxyUDPs, out, up)
    }

    lemma CommitNothing(sid: Sid)
      ensures N.Known(State(), sid) ==>
                State() == N.Commit(State(), sid.index, N.Effect(sess[sid.index], None, sid in proxySessions))
    {
    }

    method OnTunnelMsg(m: Msg, k: nat)
      modifies this
      ensures State() == N.OnMessage(old(State()), m, k)
    {
      CommitNothing(m.sid);
      match m
      case Create(sid) => OnProxySessionCreate(sid);
      case Reply(_, _) =>
      case Data(sid, data) => OnProxySessionDataFromTunnel(sid, data, k);
      case Close(sid) => OnProxySessionClose(sid);
      case UdpData(sid, _) => proxyUDPs := proxyUDPs + {sid};
    }

    method OnProxySessionCreate(sid: Sid)
      modifies this
      ensures State() == N.OnMessage(old(State()), Create(sid), 0)
    {
      CommitNothing(sid);
      if sid.V4? && !N.Known(State(), sid) {
        sess := sess[sid.index := N.NEW_SESSION];
      }
    }

    method OnProxySessionDataFromTunnel(sid: Sid, data: Bytes, k: nat)
      modifies this
      ensures State() == N.OnMessage(old(State()), Data(sid, data), k)
    {
      if N.Known(State(), sid) {
        var x := sess[sid.index];
        var conn := x.conn;
        if sid in proxySessions {
          conn := WriteConn(conn, data, k);
        }
        sess := sess[sid.index := x.(handled := x.handled + 1, conn := conn)];
      }
    }

    method OnProxySessionClose(sid: Sid)
      modifies this
      ensures State() == N.OnMessage(old(State()), Close(sid), 0)
    {
      CommitNothing(sid);
      if sid in proxySessions && N.Known(State(), sid) {
        var x := sess[sid.index];
        sess := sess[sid.index := x.(conn := CloseConn(x.conn))];
      }
    }
  }
}
