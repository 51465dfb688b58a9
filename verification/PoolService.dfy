/** The node pool as it runs: a store whose fields the operations update in place, and the services that call it. */
module PoolService {
  import opened Prelude
  import opened PoolStore
  import L = PoolLogic
  import F = FrontEnd

  /** The Redis keys of `ippop/api/model`. */
  class Redis {
    var nodes: map<string, Node>
    var users: map<string, User>
    var nodeZset: set<string>
    var userZset: set<string>
    var bind: set<string>
    var free: map<string, int>
    var online: set<string>

    constructor (s: Store)
      ensures State() == s
    {
      nodes, users, nodeZset, userZset := s.nodes, s.users, s.nodeZset, s.userZset;
      bind, free, online := s.bind, s.free, s.online;
    }

    function State(): Store
      reads this
    {
      Store(nodes, users, nodeZset, userZset, bind, free, online)
    }

    method AddFree(id: string, now: int)
      modifies this`free
      ensures State() == AddFreeNode(old(State()), id, now)
    {
      free := free[id := now];
    }

    method RemoveFree(id: string)
      modifies this`free
      ensures State() == RemoveFreeNode(old(State()), id)
    {
      free := free - {id};
    }

    method Allocate() returns (chosen: Option<string>)
      modifies this`free
      ensures (State(), chosen) == AllocateFreeNode(old(State()))
    {
      if free == map[] {
        return None;
      }
      MinExists(free);
      var id :| id in free && IsMin(free, id);
      MinUnique(free, id, MinFree(free).value);
      free := free - {id};
      chosen := Some(id);
    }

    method Bind(id: string, user: User, now: int) returns (outcome: Outcome)
      modifies this
      ensures (State(), outcome) == BindNodeWithNewUser(old(State()), id, user, now)
    {
      if id !in nodes {
        return NodeNotExist;
      }
      var node := nodes[id];
      if node.bindUser != "" {
        if id in online {
          AddFree(id, now);
        }
        return AlreadyBound;
      }
      nodes := nodes[id := node.(bindUser := user.userName)];
      users := users[user.userName := user];
      userZset := userZset + {user.userName};
      bind := bind + {id};
      free := free - {id};
      outcome := Ok;
    }

    method Unbind(id: string, now: int) returns (outcome: Outcome)
      modifies this
      ensures (State(), outcome) == UnbindNode(old(State()), id, now)
    {
      if id !in nodes {
        return NodeNotExist;
      }
      nodes := nodes[id := nodes[id].(bindUser := "")];
      bind := bind - {id};
      if id in online {
        free := free[id := now];
      }
      outcome := Ok;
    }

    method Switch(user: User, to: string, now: int) returns (outcome: Outcome)
      modifies this
      ensures (State(), outcome) == SwitchNodeByUser(old(State()), user, to, now)
    {
      var from := user.routeNodeID;
      if from !in nodes || to !in nodes {
        return NodeNotExist;
      }
      if nodes[to].bindUser != "" {
        return AlreadyBound;
      }
      var fromNode := nodes[from].(bindUser := "");
      var toNode := nodes[to].(bindUser := user.userName);
      nodes := nodes[from := fromNode];
      bind := bind - {from};
      if from in online {
        free := free[from := now];
      }
      nodes := nodes[to := toNode];
      users := users[user.userName := user.(routeNodeID := to)];
      bind := bind + {to};
      free := free - {to};
      outcome := Ok;
    }
  }

  /** `swithNodeForUser` and the RPC handlers, on top of the store. */
  class UserService {
    const redis: Redis

    constructor (redis: Redis)
      ensures this.redis == redis
    {
      this.redis := redis;
    }

    method CreateUser(req: L.CreateReq, now: int, monthLater: int) returns (outcome: Outcome)
      modifies redis
      ensures (redis.State(), outcome) == L.CreateUser(old(redis.State()), req, now, monthLater)
    {
      outcome := L.CheckCreate(redis.State(), req, now);
      if outcome != Ok {
        return;
      }
      var traffic := L.TrafficLimit(now, monthLater, L.DEFAULT_TOTAL_TRAFFIC);
      if req.traffic.Some? {
        traffic := req.traffic.value;
      }
      var route := L.Route(1, "", 0);
      if req.route.Some? {
        route := req.route.value;
      }
      var id := route.nodeId;
      if id == "" {
        var chosen := redis.Allocate();
        if chosen.None? {
          return NoFreeNode;
        }
        id := chosen.value;
      }
      if id == "" {
        return NoFreeNode;
      }
      if id !in redis.nodes {
        return NodeNotExist;
      }
      outcome := redis.Bind(id, L.NewUser(req, traffic, route, id), now);
    }

    method DeleteUser(name: string, now: int) returns (outcome: Outcome)
      modifies redis
      ensures (redis.State(), outcome) == L.DeleteUser(old(redis.State()), name, now)
    {
      if name !in redis.users {
        return UserNotExist;
      }
      var id := redis.users[name].routeNodeID;
      redis.users := redis.users - {name};
      redis.userZset := redis.userZset - {name};
      outcome := Ok;
      if id != "" {
        outcome := redis.Unbind(id, now);
      }
    }

    method ModifyUser(req: L.ModifyReq, now: int) returns (outcome: Outcome)
      modifies redis
      ensures (redis.State(), outcome) == L.ModifyUser(old(redis.State()), req, now)
    {
      if req.traffic.None? || req.route.None? {
        return MissingArgument;
      }
      var route, traffic := req.route.value, req.traffic.value;
      outcome := L.CheckRoute(redis.State(), route);
      if outcome != Ok {
        return;
      }
      if !L.TrafficOk(traffic, now) {
        return InvalidTraffic;
      }
      if req.userName !in redis.users {
        return UserNotExist;
      }
      var user := redis.users[req.userName];
      if user.routeNodeID == route.nodeId {
        return SameNode;
      }
      user := user.(startTime := traffic.startTime, endTime := traffic.endTime);
      user := user.(totalTraffic := traffic.totalTraffic);
      user := user.(routeMode := route.mode, updateRouteIntervals := route.intervals);
      outcome := redis.Switch(user, route.nodeId, now);
    }

    method SwitchUserRouteNode(name: string, nodeId: string, now: int) returns (outcome: Outcome)
      modifies redis
      ensures (redis.State(), outcome) == L.SwitchUserRouteNode(old(redis.State()), name, nodeId, now)
    {
      if name !in redis.users {
        return UserNotExist;
      }
      var user, to := redis.users[name], nodeId;
      if nodeId != "" {
        outcome := L.CheckNode(redis.State(), nodeId);
        if outcome != Ok {
          return;
        }
      } else {
        var chosen := redis.Allocate();
        if chosen.None? {
          return NoFreeNode;
        }
        to := chosen.value;
      }
      outcome := redis.Switch(user, to, now);
      if outcome != Ok {
        redis.AddFree(to, now);
      }
    }
  }

  /** `TunnelManager`: live tunnels, the user cache, and what happens when nodes come and go. */
  class TunnelManager {
    const redis: Redis
    var tunnels: map<string, F.Tun>
    var userCache: map<string, User>

    constructor (redis: Redis)
      modifies redis
      ensures this.redis == redis
      ensures State() == F.StartUp(old(redis.State()))
    {
      this.redis := redis;
      tunnels, userCache := map[], map[];
      new;
      redis.online := {};
      redis.free := map[];
    }

    function State(): F.Front
      reads this, redis
    {
      F.Front(redis.State(), userCache, tunnels)
    }

    /** Closing a live old tunnel ends with its disconnect; then the node, read before, is registered. */
    method AcceptWebsocket(id: string, node: Node, now: int)
      modifies this, redis
      ensures var before := if id in old(tunnels)
                            then F.PoolStep(old(State()), F.Runs.Event(now, F.Runs.Disconnects(id)))
                            else old(State());
              State() == F.Front(L.Register(before.store, id, node, now), before.cache,
                                 before.tunnels[id := F.Tun(None, None)])
    {
      if id in tunnels {
        Disconnect(id, now);
      }
      tunnels := tunnels[id := F.Tun(None, None)];
      redis.nodes := redis.nodes[id := node];
      redis.nodeZset := redis.nodeZset + {id};
      redis.online := redis.online + {id};
      if node.bindUser == "" {
        redis.AddFree(id, now);
      }
    }

    method SwitchNodeForUser(name: string, now: int) returns (outcome: Outcome)
      modifies this`userCache, redis
      ensures (redis.State(), outcome) == L.SwitchNodeForUser(old(redis.State()), name, now)
      ensures userCache == if outcome == Ok then old(userCache) - {name} else old(userCache)
    {
      if name !in redis.users {
        return UserNotExist;
      }
      var user := redis.users[name];
      var chosen := redis.Allocate();
      if chosen.None? {
        return NoFreeNode;
      }
      outcome := redis.Switch(user, chosen.value, now);
      if outcome != Ok {
        redis.AddFree(chosen.value, now);
        return;
      }
      userCache := userCache - {name};
    }

    /** The end of `acceptWebsocket`: the node goes offline and its tunnel is forgotten. */
    method Disconnect(id: string, now: int)
      modifies this, redis
      ensures State() == F.PoolStep(old(State()), F.Runs.Event(now, F.Runs.Disconnects(id)))
    {
      redis.online := redis.online - {id};
      if id in redis.nodes {
        var name := redis.nodes[id].bindUser;
        if name != "" {
          var _ := SwitchNodeForUser(name, now);
        } else {
          redis.RemoveFree(id);
        }
      }
      tunnels := tunnels - {id};
    }

    method GetUserFromCache(name: string) returns (user: Option<User>)
      modifies this`userCache
      ensures (State(), user) == F.GetUserFromCache(old(State()), name)
    {
      if name in userCache {
        return Some(userCache[name]);
      }
      if name !in redis.users {
        return None;
      }
      userCache := userCache[name := redis.users[name]];
      user := Some(redis.users[name]);
    }

    method GetTunnelByUser(name: string) returns (found: F.Found)
      modifies this
      ensures (State(), found) == F.GetTunnelByUser(old(State()), name)
    {
      var user := GetUserFromCache(name);
      if user.None? {
        return F.UnknownUser;
      }
      var id := user.value.routeNodeID;
      if id !in tunnels {
        return F.NoTunnel;
      }
      var tun := tunnels[id];
      if user.value.downloadRateLimit <= 0 {
        tun := tun.(readLimit := None);
      } else if tun.readLimit.None? || tun.readLimit.value != user.value.downloadRateLimit {
        tun := tun.(readLimit := Some(user.value.downloadRateLimit));
      }
      if user.value.uploadRateLimit <= 0 {
        tun := tun.(writeLimit := None);
      } else if tun.writeLimit.None? || tun.writeLimit.value != user.value.uploadRateLimit {
        tun := tun.(writeLimit := Some(user.value.uploadRateLimit));
      }
      tunnels := tunnels[id := tun];
      found := F.Via(id);
    }
  }
}
