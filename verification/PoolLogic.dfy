/** The callers of the node pool: RPC requests to create, delete, modify and switch users, and nodes that connect and
    disconnect. Each runs as one step here; `PoolSplit` takes allocation apart. */
module PoolLogic {
  import opened Prelude
  import opened PoolStore

  const TRAFFIC_UNIT := 1024 * 1024 * 1024
  const DEFAULT_TOTAL_TRAFFIC := 1000

  datatype Route = Route(mode: int, nodeId: string, intervals: int)

  datatype TrafficLimit = TrafficLimit(startTime: int, endTime: int, totalTraffic: int)

  datatype CreateReq = CreateReq(
    userName: string, passwordMD5: string, route: Option<Route>, traffic: Option<TrafficLimit>,
    uploadRateLimit: int, downloadRateLimit: int)

  datatype ModifyReq = ModifyReq(userName: string, route: Option<Route>, traffic: Option<TrafficLimit>)

  /** As written: the three known modes are the ones reported invalid. */
  predicate IsInvalidRouteMode(mode: int) { mode == 1 || mode == 2 || mode == 3 }

  function CheckRoute(s: Store, route: Route): Outcome {
    if IsInvalidRouteMode(route.mode) then InvalidRoute
    else if route.nodeId == "" then Ok
    else if route.nodeId !in s.nodes then NodeNotExist
    else if s.nodes[route.nodeId].bindUser != "" then AlreadyBound
    else Ok
  }

  predicate TrafficOk(t: TrafficLimit, now: int) {
    t.startTime < t.endTime && now <= t.endTime && 0 < t.totalTraffic
  }

  /** The checks that come before a node is looked for. */
  function CheckCreate(s: Store, req: CreateReq, now: int): Outcome {
    if req.userName in s.users then UserExists
    else if req.route.Some? && CheckRoute(s, req.route.value) != Ok then CheckRoute(s, req.route.value)
    else if req.traffic.Some? && !TrafficOk(req.traffic.value, now) then InvalidTraffic
    else Ok
  }

  /** `monthLater` is the clock reading one month after `now`. */
  ghost function CreateUser(s: Store, req: CreateReq, now: int, monthLater: int): (Store, Outcome) {
    if CheckCreate(s, req, now) != Ok then (s, CheckCreate(s, req, now))
    else
      var traffic := if req.traffic.Some? then req.traffic.value
                     else TrafficLimit(now, monthLater, DEFAULT_TOTAL_TRAFFIC);
      var route := if req.route.Some? then req.route.value else Route(1, "", 0);
      if route.nodeId != "" then CreateOn(s, route.nodeId, req, traffic, route, now)
      else CreateAnywhere(s, req, traffic, route, now)
  }

  ghost function CreateAnywhere(s: Store, req: CreateReq, traffic: TrafficLimit, route: Route, now: int)
    : (Store, Outcome)
  {
    var (t, chosen) := AllocateFreeNode(s);
    if chosen.None? then (t, NoFreeNode) else CreateOn(t, chosen.value, req, traffic, route, now)
  }

  function CreateOn(s: Store, id: string, req: CreateReq, traffic: TrafficLimit, route: Route, now: int)
    : (Store, Outcome)
  {
    if id == "" then (s, NoFreeNode)
    else if id !in s.nodes then (s, NodeNotExist)
    else BindNodeWithNewUser(s, id, NewUser(req, traffic, route, id), now)
  }

  function NewUser(req: CreateReq, traffic: TrafficLimit, route: Route, id: string): User {
    User(req.userName, req.passwordMD5, traffic.startTime, traffic.endTime,
         Wrap64(traffic.totalTraffic * TRAFFIC_UNIT), 0, route.mode, id, route.intervals, 0, false,
         req.uploadRateLimit, req.downloadRateLimit)
  }

  function DeleteUser(s: Store, name: string, now: int): (Store, Outcome) {
    if name !in s.users then (s, UserNotExist)
    else
      var id := s.users[name].routeNodeID;
      var t := DeleteUserRecord(s, name);
      if id == "" then (t, Ok) else UnbindNode(t, id, now)
  }

  function ModifyUser(s: Store, req: ModifyReq, now: int): (Store, Outcome) {
    if req.traffic.None? || req.route.None? then (s, MissingArgument)
    else
      var route, traffic := req.route.value, req.traffic.value;
      if CheckRoute(s, route) != Ok then (s, CheckRoute(s, route))
      else if !TrafficOk(traffic, now) then (s, InvalidTraffic)
      else if req.userName !in s.users then (s, UserNotExist)
      else if s.users[req.userName].routeNodeID == route.nodeId then (s, SameNode)
      else
        var user := s.users[req.userName].(
                      startTime := traffic.startTime, endTime := traffic.endTime,
                      totalTraffic := traffic.totalTraffic, routeMode := route.mode,
                      updateRouteIntervals := route.intervals);
        SwitchNodeByUser(s, user, route.nodeId, now)
  }

  function CheckNode(s: Store, id: string): Outcome {
    if id !in s.nodes then NodeNotExist
    else if s.nodes[id].bindUser != "" then AlreadyBound
    else if id !in s.online then NodeOffline
    else Ok
  }

  /** Switches a user to the named node, or to an allocated one when none is named; a refused switch puts the node
      into the free set. */
  ghost function SwitchUserRouteNode(s: Store, name: string, nodeId: string, now: int): (Store, Outcome) {
    if name !in s.users then (s, UserNotExist)
    else if nodeId != "" && CheckNode(s, nodeId) != Ok then (s, CheckNode(s, nodeId))
    else
      var (t, chosen) := if nodeId == "" then AllocateFreeNode(s) else (s, Some(nodeId));
      if chosen.None? then (t, NoFreeNode)
      else SwitchOrPutBack(t, s.users[name], chosen.value, now)
  }

  function SwitchOrPutBack(s: Store, user: User, to: string, now: int): (Store, Outcome) {
    var (t, outcome) := SwitchNodeByUser(s, user, to, now);
    if outcome == Ok then (t, Ok) else (AddFreeNode(t, to, now), outcome)
  }

  /** Failover: the user of a node that went offline moves to an allocated node. */
  ghost function SwitchNodeForUser(s: Store, name: string, now: int): (Store, Outcome) {
    if name !in s.users then (s, UserNotExist)
    else
      var (t, chosen) := AllocateFreeNode(s);
      if chosen.None? then (t, NoFreeNode) else SwitchOrPutBack(t, s.users[name], chosen.value, now)
  }

  /** The record that a connecting node writes, from the record read before. */
  function LoginRecord(before: Option<Node>, os: string, ip: string, time: string): Node {
    match before
    case None => Node(os, ip, time, time, "", 0)
    case Some(n) => n.(os := os, ip := ip, loginAt := time)
  }

  function Lookup(s: Store, id: string): Option<Node> {
    if id in s.nodes then Some(s.nodes[id]) else None
  }

  /** `acceptWebsocket` after the record has been prepared. */
  function Register(s: Store, id: string, node: Node, now: int): Store {
    var t := SetNodeAndZadd(s, id, node).(online := s.online + {id});
    if node.bindUser == "" then AddFreeNode(t, id, now) else t
  }

  function Connect(s: Store, id: string, os: string, ip: string, time: string, now: int): Store {
    Register(s, id, LoginRecord(Lookup(s, id), os, ip, time), now)
  }

  ghost function Disconnect(s: Store, id: string, now: int): Store {
    var t := s.(online := s.online - {id});
    if id !in t.nodes then t
    else if t.nodes[id].bindUser != "" then SwitchNodeForUser(t, t.nodes[id].bindUser, now).0
    else RemoveFreeNode(t, id)
  }
}
