/** Users and nodes are bound one to one, the indexes agree with the records, and the free set holds exactly the
    unbound nodes that are online - in every state that the operations reach. */
module PoolInvariant {
  import opened Prelude
  import opened PoolStore
  import opened PoolLogic

  /** User `u` is routed to node `n` exactly when `n` is bound to `u`. */
  predicate OneToOne(s: Store) {
    && (forall u <- s.users ::
          u != "" && s.users[u].userName == u && s.users[u].routeNodeID in s.nodes &&
          s.nodes[s.users[u].routeNodeID].bindUser == u)
    && (forall n <- s.nodes ::
          s.nodes[n].bindUser != "" ==>
            s.nodes[n].bindUser in s.users && s.users[s.nodes[n].bindUser].routeNodeID == n)
  }

  predicate Unbound(s: Store, n: string) { n in s.nodes && s.nodes[n].bindUser == "" }

  ghost predicate IndexesAgree(s: Store) {
    && "" !in s.nodes
    && s.nodeZset == s.nodes.Keys
    && s.userZset == s.users.Keys
    && s.online <= s.nodes.Keys
    && (forall n :: n in s.bind <==> n in s.nodes && s.nodes[n].bindUser != "")
  }

  /** Free are the unbound nodes that are online, apart from the nodes that an allocation has in hand. */
  ghost predicate FreeExact(s: Store, held: set<string>) {
    && (forall n <- held :: Unbound(s, n))
    && (forall n :: n in s.free <==> n in s.online && Unbound(s, n) && n !in held)
  }

  ghost predicate InvHeld(s: Store, held: set<string>) { OneToOne(s) && IndexesAgree(s) && FreeExact(s, held) }

  ghost predicate Inv(s: Store) { InvHeld(s, {}) }

  // ---------------------------------------------------------------- model operations

  lemma BindOneToOne(s: Store, id: string, user: User, now: int)
    requires OneToOne(s) && Unbound(s, id)
    requires user.userName != "" && user.userName !in s.users && user.routeNodeID == id
    ensures OneToOne(BindNodeWithNewUser(s, id, user, now).0)
  {
    assert forall n <- s.nodes :: s.nodes[n].bindUser != user.userName;
  }

  lemma BindIndexes(s: Store, held: set<string>, id: string, user: User, now: int)
    requires IndexesAgree(s) && FreeExact(s, held) && Unbound(s, id) && user.userName != ""
    ensures var t := BindNodeWithNewUser(s, id, user, now).0; IndexesAgree(t) && FreeExact(t, held - {id})
  {
  }

  lemma BindKeepsInv(s: Store, held: set<string>, id: string, user: User, now: int)
    requires InvHeld(s, held) && Unbound(s, id)
    requires user.userName != "" && user.userName !in s.users && user.routeNodeID == id
    ensures var (t, outcome) := BindNodeWithNewUser(s, id, user, now);
            && outcome == Ok && InvHeld(t, held - {id}) && t.online == s.online
            && t.users == s.users[user.userName := user] && t.nodes[id].bindUser == user.userName && id in t.bind
  {
    BindOneToOne(s, id, user, now);
    BindIndexes(s, held, id, user, now);
  }

  lemma SwitchOneToOne(s: Store, user: User, to: string, now: int)
    requires OneToOne(s) && Unbound(s, to)
    requires user.userName in s.users && user.routeNodeID == s.users[user.userName].routeNodeID
    ensures OneToOne(SwitchNodeByUser(s, user, to, now).0)
  {
    var from := user.routeNodeID;
    assert forall u <- s.users :: u != user.userName ==> s.users[u].routeNodeID != from && s.users[u].routeNodeID != to;
  }

  lemma SwitchIndexes(s: Store, held: set<string>, user: User, to: string, now: int)
    requires IndexesAgree(s) && FreeExact(s, held) && Unbound(s, to) && user.userName in s.users && user.userName != ""
    requires user.routeNodeID in s.nodes && s.nodes[user.routeNodeID].bindUser == user.userName
    ensures var t := SwitchNodeByUser(s, user, to, now).0; IndexesAgree(t) && FreeExact(t, held - {to})
  {
  }

  lemma SwitchKeepsInv(s: Store, held: set<string>, user: User, to: string, now: int)
    requires InvHeld(s, held) && Unbound(s, to)
    requires user.userName in s.users && user.routeNodeID == s.users[user.userName].routeNodeID
    ensures var (t, outcome) := SwitchNodeByUser(s, user, to, now);
            outcome == Ok && InvHeld(t, held - {to}) && t.users == s.users[user.userName := user.(routeNodeID := to)] &&
            t.online == s.online
  {
    SwitchOneToOne(s, user, to, now);
    SwitchIndexes(s, held, user, to, now);
  }

  /** A switch with a record that may be stale keeps the invariant exactly if the user still exists and is still routed
      as the record says: of two overlapping switches of one user, such as a failover and a request, the second one
      breaks it, and a switch that overlaps the user's deletion brings the user back. */
  lemma SwitchKeepsInvExactly(s: Store, held: set<string>, user: User, to: string, now: int)
    requires InvHeld(s, held) && Unbound(s, to)
    requires user.routeNodeID in s.nodes
    ensures InvHeld(SwitchNodeByUser(s, user, to, now).0, held - {to}) <==>
            user.userName in s.users && user.routeNodeID == s.users[user.userName].routeNodeID
  {
    var t := SwitchNodeByUser(s, user, to, now).0;
    if user.userName !in s.users {
      assert user.userName in t.users && t.userZset == s.userZset;
      assert user.userName !in s.userZset;
    } else {
      var route := s.users[user.userName].routeNodeID;
      if user.routeNodeID == route {
        SwitchKeepsInv(s, held, user, to, now);
      } else {
        assert t.nodes[route].bindUser == user.userName && t.users[user.userName].routeNodeID == to != route;
      }
    }
  }

  lemma DeleteKeepsInv(s: Store, held: set<string>, name: string, now: int)
    requires InvHeld(s, held)
    ensures var (t, outcome) := DeleteUser(s, name, now);
            && InvHeld(t, held)
            && outcome == (if name in s.users then Ok else UserNotExist)
            && t.users == s.users - {name}
            && (outcome == Ok ==> t.nodes[s.users[name].routeNodeID].bindUser == "")
  {
    if name in s.users {
      var id := s.users[name].routeNodeID;
      var t := DeleteUser(s, name, now).0;
      assert t.nodes == s.nodes[id := s.nodes[id].(bindUser := "")];
      ReleaseKeepsInv(s, held, t, name, id);
    } else {
      assert s.users - {name} == s.users;
    }
  }

  lemma ReleaseOneToOne(s: Store, t: Store, name: string, id: string)
    requires OneToOne(s) && name in s.users && id == s.users[name].routeNodeID
    requires t.nodes == s.nodes[id := s.nodes[id].(bindUser := "")] && t.users == s.users - {name}
    ensures OneToOne(t)
  {
    assert forall n <- s.nodes :: n != id ==> s.nodes[n].bindUser != name;
  }

  lemma ReleaseKeepsInv(s: Store, held: set<string>, t: Store, name: string, id: string)
    requires InvHeld(s, held) && name in s.users && id == s.users[name].routeNodeID
    requires t.nodes == s.nodes[id := s.nodes[id].(bindUser := "")] && t.nodeZset == s.nodeZset
    requires t.users == s.users - {name} && t.userZset == s.userZset - {name}
    requires t.bind == s.bind - {id} && t.online == s.online
    requires t.free.Keys == if id in s.online then s.free.Keys + {id} else s.free.Keys
    ensures InvHeld(t, held)
  {
    ReleaseOneToOne(s, t, name, id);
  }

  /** Allocation takes an unbound online node out of the free set and into the caller's hand. */
  lemma AllocateKeepsInv(s: Store, held: set<string>)
    requires InvHeld(s, held)
    ensures var (t, chosen) := AllocateFreeNode(s);
            && t == s.(free := t.free)
            && (chosen.None? ==> t == s && s.free == map[])
            && (chosen.Some? ==>
                  && chosen == MinFree(s.free) && chosen.value !in held && chosen.value != ""
                  && Unbound(s, chosen.value) && chosen.value in s.online
                  && InvHeld(t, held + {chosen.value}))
  {
  }

  // ---------------------------------------------------------------- requests

  predicate Explicit(req: CreateReq) { req.route.Some? && req.route.value.nodeId != "" }

  /** A period that starts before it ends and has not ended, and an allowance. */
  predicate LimitOk(t: TrafficLimit, now: int) { t.startTime < t.endTime && t.endTime >= now && t.totalTraffic > 0 }

  /** The request passes every check that does not concern nodes; as written, modes 1 to 3 do not pass. */
  predicate CreateWellFormed(s: Store, req: CreateReq, now: int) {
    && req.userName !in s.users
    && (req.route.Some? ==> !(1 <= req.route.value.mode <= 3))
    && (req.traffic.Some? ==> LimitOk(req.traffic.value, now))
  }

  lemma CreateOnKeepsInv(s: Store, held: set<string>, id: string, req: CreateReq, traffic: TrafficLimit, route: Route,
                         now: int)
    requires InvHeld(s, held) && req.userName != "" && req.userName !in s.users && Unbound(s, id)
    ensures var (t, outcome) := CreateOn(s, id, req, traffic, route, now);
            && outcome == Ok && InvHeld(t, held - {id})
            && t.users == s.users[req.userName := NewUser(req, traffic, route, id)] && t.online == s.online
  {
    BindKeepsInv(s, held, id, NewUser(req, traffic, route, id), now);
  }

  lemma CreateAnywhereKeepsInv(s: Store, held: set<string>, req: CreateReq, traffic: TrafficLimit, route: Route,
                               now: int)
    requires InvHeld(s, held) && req.userName != "" && req.userName !in s.users
    ensures var (t, outcome) := CreateAnywhere(s, req, traffic, route, now);
            && InvHeld(t, held) && t.online == s.online
            && (outcome == Ok <==> s.free != map[])
            && (outcome != Ok ==> t == s)
            && (outcome == Ok ==>
                  t.users == s.users[req.userName := NewUser(req, traffic, route, MinFree(s.free).value)])
  {
    AllocateKeepsInv(s, held);
    var (t, chosen) := AllocateFreeNode(s);
    if chosen.Some? {
      CreateOnKeepsInv(t, held + {chosen.value}, chosen.value, req, traffic, route, now);
      assert held + {chosen.value} - {chosen.value} == held;
    }
  }

  /** A create either binds the new user to the named node or to the one that ZPOPMIN yields, or changes nothing. It
      succeeds exactly when the request is well formed and that node is there to take. */
  lemma CreateKeepsInv(s: Store, held: set<string>, req: CreateReq, now: int, monthLater: int)
    requires InvHeld(s, held) && req.userName != ""
    requires Explicit(req) ==> req.route.value.nodeId !in held
    ensures var (t, outcome) := CreateUser(s, req, now, monthLater);
            && InvHeld(t, held) && t.online == s.online
            && (outcome != Ok ==> t == s)
            && (outcome == Ok <==> CreateWellFormed(s, req, now) &&
                                   if Explicit(req) then Unbound(s, req.route.value.nodeId) else s.free != map[])
            && (outcome == Ok ==>
                  && t.users == s.users[req.userName := t.users[req.userName]]
                  && t.users[req.userName].routeNodeID ==
                     if Explicit(req) then req.route.value.nodeId else MinFree(s.free).value)
  {
    if CheckCreate(s, req, now) == Ok {
      var traffic := if req.traffic.Some? then req.traffic.value
                     else TrafficLimit(now, monthLater, DEFAULT_TOTAL_TRAFFIC);
      var route := if req.route.Some? then req.route.value else Route(1, "", 0);
      if Explicit(req) {
        CreateOnKeepsInv(s, held, route.nodeId, req, traffic, route, now);
        assert held - {route.nodeId} == held;
      } else {
        CreateAnywhereKeepsInv(s, held, req, traffic, route, now);
      }
    }
  }

  lemma ModifyMoves(s: Store, held: set<string>, req: ModifyReq, now: int)
    requires InvHeld(s, held) && req.route.Some? && req.traffic.Some? && req.userName in s.users
    requires CheckRoute(s, req.route.value) == Ok && TrafficOk(req.traffic.value, now)
    requires Unbound(s, req.route.value.nodeId) && req.route.value.nodeId !in held
    ensures var (t, outcome) := ModifyUser(s, req, now);
            && outcome == Ok && InvHeld(t, held) && t.online == s.online
            && t.users == s.users[req.userName := t.users[req.userName]]
            && t.users[req.userName].routeNodeID == req.route.value.nodeId
  {
    var user, traffic, route := s.users[req.userName], req.traffic.value, req.route.value;
    SwitchKeepsInv(s, held, user.(startTime := traffic.startTime, endTime := traffic.endTime,
                                  totalTraffic := traffic.totalTraffic, routeMode := route.mode,
                                  updateRouteIntervals := route.intervals), route.nodeId, now);
    assert held - {route.nodeId} == held;
  }

  /** A modify moves the user to the named node exactly when its arguments are valid and that node is unbound. */
  lemma ModifyKeepsInv(s: Store, held: set<string>, req: ModifyReq, now: int)
    requires InvHeld(s, held)
    requires req.route.Some? ==> req.route.value.nodeId !in held
    ensures var (t, outcome) := ModifyUser(s, req, now);
            && InvHeld(t, held) && t.online == s.online
            && (outcome != Ok ==> t == s)
            && (outcome == Ok <==>
                  && req.route.Some? && !(1 <= req.route.value.mode <= 3)
                  && req.traffic.Some? && LimitOk(req.traffic.value, now)
                  && req.userName in s.users && Unbound(s, req.route.value.nodeId))
            && (outcome == Ok ==>
                  && t.users == s.users[req.userName := t.users[req.userName]]
                  && t.users[req.userName].routeNodeID == req.route.value.nodeId)
  {
    if req.route.Some? && req.traffic.Some? && req.userName in s.users && CheckRoute(s, req.route.value) == Ok {
      if TrafficOk(req.traffic.value, now) && Unbound(s, req.route.value.nodeId) {
        ModifyMoves(s, held, req, now);
      }
    }
  }

  /** With the invariant in force a switch is never refused, so nothing is put back. */
  lemma SwitchOrPutBackKeepsInv(s: Store, held: set<string>, user: User, to: string, now: int)
    requires InvHeld(s, held) && Unbound(s, to)
    requires user.userName in s.users && user.routeNodeID == s.users[user.userName].routeNodeID
    ensures var (t, outcome) := SwitchOrPutBack(s, user, to, now);
            && outcome == Ok && InvHeld(t, held - {to}) && t.online == s.online
            && t.users == s.users[user.userName := user.(routeNodeID := to)]
  {
    SwitchKeepsInv(s, held, user, to, now);
  }

  lemma AllocatedSwitchKeepsInv(s: Store, held: set<string>, name: string, now: int)
    requires InvHeld(s, held) && name in s.users
    ensures var (t, chosen) := AllocateFreeNode(s);
            && (chosen.None? ==> t == s && s.free == map[])
            && (chosen.Some? ==>
                  var (u, outcome) := SwitchOrPutBack(t, s.users[name], chosen.value, now);
                  && outcome == Ok && InvHeld(u, held) && u.online == s.online
                  && chosen == MinFree(s.free) && s.free != map[]
                  && u.users == s.users[name := s.users[name].(routeNodeID := chosen.value)])
  {
    AllocateKeepsInv(s, held);
    var (t, chosen) := AllocateFreeNode(s);
    if chosen.Some? {
      SwitchOrPutBackKeepsInv(t, held + {chosen.value}, s.users[name], chosen.value, now);
      assert held + {chosen.value} - {chosen.value} == held;
    }
  }

  /** A switch moves the user to the named node exactly when that node is free, or, when none is named, to the node
      that ZPOPMIN yields exactly when there is one. */
  lemma SwitchUserKeepsInv(s: Store, held: set<string>, name: string, nodeId: string, now: int)
    requires InvHeld(s, held) && nodeId !in held
    ensures var (t, outcome) := SwitchUserRouteNode(s, name, nodeId, now);
            && InvHeld(t, held) && t.online == s.online
            && (outcome != Ok ==> t == s)
            && (outcome == Ok <==> name in s.users && if nodeId != "" then nodeId in s.free else s.free != map[])
            && (outcome == Ok ==>
                  t.users == s.users[name := s.users[name].(routeNodeID :=
                               if nodeId != "" then nodeId else MinFree(s.free).value)])
  {
    if name in s.users {
      if nodeId == "" {
        AllocatedSwitchKeepsInv(s, held, name, now);
      } else if CheckNode(s, nodeId) == Ok {
        SwitchOrPutBackKeepsInv(s, held, s.users[name], nodeId, now);
        assert held - {nodeId} == held;
      }
    }
  }

  // ---------------------------------------------------------------- nodes

  /** Records that change nothing about who is bound to whom. */
  lemma SameBinding(s: Store, t: Store)
    requires OneToOne(s) && s.nodes.Keys <= t.nodes.Keys && s.users == t.users
    requires forall n <- t.nodes :: t.nodes[n].bindUser == if n in s.nodes then s.nodes[n].bindUser else ""
    ensures OneToOne(t)
  {
  }

  /** The user that the node is bound to; empty for an unbound or unknown node. */
  function BindingOf(s: Store, id: string): string { if id in s.nodes then s.nodes[id].bindUser else "" }

  lemma RegisterIndexes(s: Store, id: string, node: Node, now: int)
    requires IndexesAgree(s) && id != ""
    requires node.bindUser == BindingOf(s, id)
    ensures IndexesAgree(Register(s, id, node, now))
  {
  }

  lemma RegisterFree(s: Store, held: set<string>, id: string, node: Node, now: int)
    requires FreeExact(s, held) && id !in held
    requires node.bindUser == BindingOf(s, id)
    ensures FreeExact(Register(s, id, node, now), held)
  {
  }

  lemma RegisterKeepsInv(s: Store, held: set<string>, id: string, node: Node, now: int)
    requires InvHeld(s, held) && id != "" && id !in held && node.bindUser == BindingOf(s, id)
    ensures InvHeld(Register(s, id, node, now), held) && Register(s, id, node, now).users == s.users
  {
    SameBinding(s, Register(s, id, node, now));
    RegisterIndexes(s, id, node, now);
    RegisterFree(s, held, id, node, now);
  }

  /** A connecting node writes back a record that it read before. The invariant survives exactly if the record still
      tells which user the node is bound to. */
  lemma RegisterKeepsInvExactly(s: Store, held: set<string>, id: string, node: Node, now: int)
    requires InvHeld(s, held) && id != "" && id !in held
    ensures InvHeld(Register(s, id, node, now), held) <==> node.bindUser == BindingOf(s, id)
  {
    var t := Register(s, id, node, now);
    if node.bindUser == BindingOf(s, id) {
      RegisterKeepsInv(s, held, id, node, now);
    } else {
      assert t.nodes[id].bindUser == node.bindUser && t.users == s.users;
      if BindingOf(s, id) != "" {
        assert t.users[BindingOf(s, id)].routeNodeID == id;
      }
    }
  }

  /** A node whose connection ends is offline and no longer free; its user stays bound until failover. */
  function GoOffline(s: Store, id: string): Store {
    var t := s.(online := s.online - {id});
    if Unbound(t, id) then RemoveFreeNode(t, id) else t
  }

  lemma GoOfflineKeepsInv(s: Store, held: set<string>, id: string)
    requires InvHeld(s, held)
    ensures InvHeld(GoOffline(s, id), held)
  {
  }

  /** A disconnected node is offline; its user, if it has one, moves to a free online node exactly when there is one,
      and otherwise stays with the node. */
  lemma DisconnectKeepsInv(s: Store, held: set<string>, id: string, now: int)
    requires InvHeld(s, held)
    ensures var t := Disconnect(s, id, now);
            && InvHeld(t, held) && t.online == s.online - {id}
            && (if id in s.nodes && s.nodes[id].bindUser != "" && s.free != map[] then
                  var name, to := s.nodes[id].bindUser, MinFree(s.free).value;
                  t.users == s.users[name := s.users[name].(routeNodeID := to)] && to in s.online && to != id
                else t.users == s.users && t.nodes == s.nodes)
  {
    var t := s.(online := s.online - {id});
    if id in s.nodes && s.nodes[id].bindUser != "" {
      GoOfflineKeepsInv(s, held, id);
      AllocatedSwitchKeepsInv(t, held, s.nodes[id].bindUser, now);
    }
  }

  /** Saving a user's record keeps the invariant exactly when the user still exists and is still routed as the record
      says. A record read before a switch, a failover or a delete and saved after it does not. */
  lemma SaveKeepsInv(s: Store, held: set<string>, user: User)
    requires InvHeld(s, held)
    ensures InvHeld(SaveUser(s, user), held) <==>
            user.userName in s.users && user.routeNodeID == s.users[user.userName].routeNodeID
  {
    var t := SaveUser(s, user);
    if InvHeld(t, held) && user.userName in s.users {
      assert t.users[user.userName] == user;
      assert t.nodes[s.users[user.userName].routeNodeID].bindUser == user.userName;
    }
  }
}
