/** The HTTP tunnel as it runs: request objects in a table, updated in place as messages arrive. */
module HttpTunnel {
  import opened Prelude
  import D = HttpDemux

  class Request {
    var conn: D.Conn
    var rspDataLength: int
    var rspContentLength: int

    constructor ()
      ensures conn == D.Conn([], true) && rspDataLength == 0 && rspContentLength == 0
    {
      conn, rspDataLength, rspContentLength := D.Conn([], true), 0, 0;
    }

    method Write(data: Bytes) returns (ok: bool)
      modifies this`conn
      ensures ok == old(conn).open && conn == D.Written(old(conn), data)
    {
      ok := conn.open;
      if ok {
        conn := conn.(out := conn.out + data);
      }
    }

    /** A header is written, and closes the connection if it announces nothing. */
    method TakeHeader(header: Bytes, length: int) returns (ok: bool)
      modifies this
      ensures ok == old(conn).open && rspDataLength == old(rspDataLength) && rspContentLength == length
      ensures conn == if length == 0 then D.Close(D.Written(old(conn), header)) else D.Written(old(conn), header)
    {
      rspContentLength := length;
      ok := Write(header);
      if ok && length == 0 {
        Close();
      }
    }

    /** A payload is counted and written, and closes the connection if it completes the response. */
    method TakePayload(payload: Bytes) returns (complete: bool)
      modifies this
      ensures rspDataLength == old(rspDataLength) + |payload| && rspContentLength == old(rspContentLength)
      ensures complete == (rspDataLength >= rspContentLength)
      ensures conn == if complete then D.Close(D.Written(old(conn), payload)) else D.Written(old(conn), payload)
    {
      rspDataLength := rspDataLength + |payload|;
      var _ := Write(payload);
      complete := rspDataLength >= rspContentLength;
      if complete {
        Close();
      }
    }

    method Close()
      modifies this`conn
      ensures conn == D.Close(old(conn))
    {
      conn := conn.(open := false);
    }
  }

  class Tunnel {
    var reqs: map<D.Id, Request>

    /** Every request there has been, registered or not. */
    ghost var known: map<D.Id, Request>

    ghost predicate Valid()
      reads this
    {
      && (forall id <- reqs :: id in known && known[id] == reqs[id])
      && (forall a <- known, b <- known :: known[a] == known[b] ==> a == b)
    }

    ghost function Conns(): map<D.Id, D.Conn>
      reads this, known.Values
    {
      map id | id in known :: known[id].conn
    }

    ghost function Counters(): map<D.Id, D.Req>
      reads this, reqs.Values
    {
      map id | id in reqs :: D.Req(reqs[id].rspDataLength, reqs[id].rspContentLength)
    }

    ghost function State(): D.State
      reads this, known.Values, reqs.Values
    {
      D.State(Conns(), Counters())
    }

    /** When only one request object was written to, only its connection can differ. */
    twostate lemma OneConnChanged(id: D.Id)
      requires old(Valid()) && known == old(known) && id in known
      requires forall r <- known.Values :: r != known[id] ==> r.conn == old(r.conn)
      ensures Conns() == old(Conns())[id := known[id].conn]
    {
    }

    constructor ()
      ensures Valid() && State() == D.INITIAL
    {
      reqs := map[];
      known := map[];
    }

    method HandleClientResponseHeaders(id: D.Id, header: Bytes, length: Option<int>) returns (ok: bool)
      requires Valid()
      modifies known.Values
      ensures Valid() && State() == D.OnHeader(old(State()), id, header, length)
      ensures ok <==> length.Some? && id in reqs && old(reqs[id].conn).open
    {
      if length.None? || id !in reqs {
        return false;
      }
      var req := reqs[id];
      assert req in known.Values;
      ok := req.TakeHeader(header, length.value);
      OneConnChanged(id);
      assert Counters() == old(Counters())[id := D.Req(req.rspDataLength, req.rspContentLength)];
    }

    method HandleClientResponseErr(id: D.Id) returns (ok: bool)
      requires Valid()
      modifies known.Values
      ensures Valid() && State() == D.Apply(old(State()), D.Fails(id))
      ensures ok <==> id in reqs
    {
      if id !in reqs {
        return false;
      }
      var req := reqs[id];
      assert req in known.Values;
      req.Close();
      ok := true;
    }

    method OnBinaryMessage(data: Bytes) returns (ok: bool)
      requires Valid()
      modifies this`reqs, known.Values
      ensures Valid() && State() == D.Apply(old(State()), D.Frame(data))
      ensures ok <==> |data| > D.ID_LENGTH && data[..D.ID_LENGTH] in old(reqs)
    {
      if |data| <= D.ID_LENGTH {
        return false;
      }
      var id := data[..D.ID_LENGTH];
      if id !in reqs {
        return false;
      }
      Receive(id, data[D.ID_LENGTH..]);
      ok := true;
    }

    method Receive(id: D.Id, payload: Bytes)
      requires Valid() && id in reqs
      modifies this`reqs, known.Values
      ensures Valid() && State() == D.OnFrame(old(State()), id, payload)
    {
      var req := reqs[id];
      assert req in known.Values;
      var complete := req.TakePayload(payload);
      if complete {
        reqs := reqs - {id};
        assert Counters() == old(Counters()) - {id};
      } else {
        assert Counters() == old(Counters())[id := D.Req(req.rspDataLength, req.rspContentLength)];
      }
      OneConnChanged(id);
    }

    /** A request's handler registers it first. */
    method RegisterRequest(id: D.Id)
      requires Valid() && D.Enabled(State(), D.Opens(id))
      modifies this
      ensures Valid() && State() == D.Apply(old(State()), D.Opens(id))
    {
      var req := new Request();
      reqs := reqs[id := req];
      known := known[id := req];
      assert Conns() == old(Conns())[id := req.conn];
      assert Counters() == old(Counters())[id := D.Req(0, 0)];
    }

    /** The handler returns: the request is forgotten and its connection closed. */
    method UnregisterRequest(id: D.Id, req: Request)
      requires Valid() && id in known && known[id] == req
      modifies this`reqs, known.Values
      ensures Valid() && State() == D.Apply(old(State()), D.Ends(id))
    {
      reqs := reqs - {id};
      assert req in known.Values;
      req.Close();
      OneConnChanged(id);
      assert Counters() == old(Counters()) - {id};
    }
  }
}
