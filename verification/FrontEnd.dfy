/** The front end (`TunnelManager`): live tunnels with their rate limits, and a cache of user records over the store. */
module FrontEnd {
  import opened Prelude
  import opened PoolStore
  import opened PoolLogic
  import opened PoolInvariant
  import Runs = PoolRuns

  /** The limiters of a live tunnel; `None` means unlimited. */
  datatype Tun = Tun(readLimit: Option<int>, writeLimit: Option<int>)

  datatype Front = Front(store: Store, cache: map<string, User>, tunnels: map<string, Tun>)

  datatype Found = UnknownUser | NoTunnel | Via(id: string)

  /** The user record by way of the cache; a miss that finds the user fills the cache. */
  function GetUserFromCache(f: Front, name: string): (Front, Option<User>) {
    if name in f.cache then (f, Some(f.cache[name]))
    else if name in f.store.users then
      (f.(cache := f.cache[name := f.store.users[name]]), Some(f.store.users[name]))
    else (f, None)
  }

  function Limiter(current: Option<int>, limit: int): Option<int> {
    if limit <= 0 then None
    else if current.None? || current.value != limit then Some(limit)
    else current
  }

  function GetTunnelByUser(f: Front, name: string): (Front, Found) {
    var (g, user) := GetUserFromCache(f, name);
    if user.None? then (g, UnknownUser)
    else
      var id := user.value.routeNodeID;
      if id !in g.tunnels then (g, NoTunnel)
      else
        var tun := Tun(Limiter(g.tunnels[id].readLimit, user.value.downloadRateLimit),
                       Limiter(g.tunnels[id].writeLimit, user.value.uploadRateLimit));
        (g.(tunnels := g.tunnels[id := tun]), Via(id))
  }

  datatype Event = Pool(e: Runs.Event) | LooksUp(name: string) | Evicts(name: string)

  /** The user whose cached record the operation removes: the one it concerns, if it succeeds. */
  ghost function Invalidates(s: Store, e: Runs.Event): Option<string> {
    if Runs.Step(s, e).1 != Ok then None
    else
      match e.what
      case Disconnects(id) =>
        var t := s.(online := s.online - {id});
        if id in s.nodes && s.nodes[id].bindUser != "" && SwitchNodeForUser(t, s.nodes[id].bindUser, e.now).1 == Ok
        then Some(s.nodes[id].bindUser) else None
      case Deletes(name) => Some(name)
      case Modifies(req) => Some(req.userName)
      case Switches(name, _) => Some(name)
      case SetsOff(name, _) => Some(name)
      case SetsPassword(name, _) => Some(name)
      case _ => None
  }

  function Forget(cache: map<string, User>, name: Option<string>): map<string, User> {
    if name.Some? then cache - {name.value} else cache
  }

  ghost function PoolStep(f: Front, e: Runs.Event): Front {
    Front(Runs.Step(f.store, e).0,
          if e.what.Restarts? then map[] else Forget(f.cache, Invalidates(f.store, e)),
          match e.what
          case Connects(id, _, _, _) => f.tunnels[id := Tun(None, None)]
          case Disconnects(id) => f.tunnels - {id}
          case Restarts => map[]
          case _ => f.tunnels)
  }

  ghost function Step(f: Front, e: Event): Front {
    match e
    case Pool(p) => PoolStep(f, p)
    case LooksUp(name) => GetTunnelByUser(f, name).0
    case Evicts(name) => f.(cache := f.cache - {name})
  }

  ghost function Run(f: Front, events: seq<Event>): Front {
    if events == [] then f else Step(Run(f, events[..|events| - 1]), events[|events| - 1])
  }

  /** A cached record may be stale in its traffic counter only. */
  predicate Fresh(s: Store, name: string, user: User) {
    name in s.users && user == s.users[name].(currentTraffic := user.currentTraffic)
  }

  predicate CacheFresh(f: Front) { forall name <- f.cache :: Fresh(f.store, name, f.cache[name]) }

  ghost predicate FrontInv(f: Front) {
    Inv(f.store) && CacheFresh(f) && f.tunnels.Keys == f.store.online
  }

  /** Apart from `name`, every user is still there as it was, up to its traffic counter. */
  predicate Spares(s: Store, t: Store, name: Option<string>) {
    forall u <- s.users :: name != Some(u) ==> Fresh(t, u, s.users[u])
  }

  lemma DisconnectSpares(s: Store, id: string, now: int)
    requires Inv(s)
    ensures var e := Runs.Event(now, Runs.Disconnects(id));
            Spares(s, Disconnect(s, id, now), Invalidates(s, e))
  {
    DisconnectKeepsInv(s, {}, id, now);
    if id in s.nodes && s.nodes[id].bindUser != "" {
      GoOfflineKeepsInv(s, {}, id);
      AllocatedSwitchKeepsInv(s.(online := s.online - {id}), {}, s.nodes[id].bindUser, now);
    }
  }

  lemma CreateSpares(s: Store, req: CreateReq, now: int, monthLater: int)
    requires Inv(s) && req.userName != ""
    ensures var t := CreateUser(s, req, now, monthLater).0; Spares(s, t, None) && t.online == s.online
  {
    CreateKeepsInv(s, {}, req, now, monthLater);
  }

  lemma DeleteSpares(s: Store, name: string, now: int)
    requires Inv(s)
    ensures var (t, outcome) := DeleteUser(s, name, now);
            Spares(s, t, if outcome == Ok then Some(name) else None) && t.online == s.online
  {
    DeleteKeepsInv(s, {}, name, now);
  }

  lemma ModifySpares(s: Store, req: ModifyReq, now: int)
    requires Inv(s)
    ensures var (t, outcome) := ModifyUser(s, req, now);
            Spares(s, t, if outcome == Ok then Some(req.userName) else None) && t.online == s.online
  {
    ModifyKeepsInv(s, {}, req, now);
  }

  lemma SwitchSpares(s: Store, name: string, nodeId: string, now: int)
    requires Inv(s)
    ensures var (t, outcome) := SwitchUserRouteNode(s, name, nodeId, now);
            Spares(s, t, if outcome == Ok then Some(name) else None) && t.online == s.online
  {
    SwitchUserKeepsInv(s, {}, name, nodeId, now);
  }

  lemma EditSpares(s: Store, name: string, change: User -> User)
    requires Inv(s) && forall u :: change(u).userName == u.userName
    ensures Spares(s, Runs.Edit(s, name, change).0, Some(name))
    ensures Runs.Edit(s, name, change).1 == Ok <==> name in s.users
  {
  }

  lemma TrafficSpares(s: Store, name: string, bytes: int, now: int)
    requires Inv(s)
    ensures Spares(s, Runs.Step(s, Runs.Event(now, Runs.SavesTraffic(name, bytes))).0, None)
  {
  }

  lemma EventSpares(s: Store, e: Runs.Event)
    requires Inv(s) && Runs.Named(e)
    ensures Spares(s, Runs.Step(s, e).0, Invalidates(s, e))
  {
    match e.what
    case Disconnects(id) => DisconnectSpares(s, id, e.now);
    case Creates(req, monthLater) => CreateSpares(s, req, e.now, monthLater);
    case Deletes(name) => DeleteSpares(s, name, e.now);
    case Modifies(req) => ModifySpares(s, req, e.now);
    case Switches(name, nodeId) => SwitchSpares(s, name, nodeId, e.now);
    case SetsOff(name, off) => EditSpares(s, name, (u: User) => u.(off := off));
    case SetsPassword(name, md5) => EditSpares(s, name, (u: User) => u.(passwordMD5 := md5));
    case SavesTraffic(name, bytes) => TrafficSpares(s, name, bytes, e.now);
    case Connects(_, _, _, _) =>
    case Restarts =>
  }

  /** Tunnels come and go with the online nodes. */
  lemma TunnelsFollow(f: Front, e: Runs.Event)
    requires Inv(f.store) && Runs.Named(e) && f.tunnels.Keys == f.store.online
    ensures PoolStep(f, e).tunnels.Keys == Runs.Step(f.store, e).0.online
  {
    var s := f.store;
    match e.what
    case Disconnects(id) => DisconnectKeepsInv(s, {}, id, e.now);
    case Creates(req, monthLater) => CreateSpares(s, req, e.now, monthLater);
    case Deletes(name) => DeleteSpares(s, name, e.now);
    case Modifies(req) => ModifySpares(s, req, e.now);
    case Switches(name, nodeId) => SwitchSpares(s, name, nodeId, e.now);
    case Connects(_, _, _, _) => case SetsOff(_, _) => case SetsPassword(_, _) => case SavesTraffic(_, _) =>
    case Restarts =>
  }

  lemma ForgetKeepsFresh(s: Store, t: Store, cache: map<string, User>, name: Option<string>)
    requires Spares(s, t, name) && forall u <- cache :: Fresh(s, u, cache[u])
    ensures forall u <- Forget(cache, name) :: Fresh(t, u, cache[u])
  {
  }

  lemma PoolStepKeeps(f: Front, e: Runs.Event)
    requires FrontInv(f) && Runs.Named(e)
    ensures FrontInv(PoolStep(f, e))
  {
    var t, name := Runs.Step(f.store, e).0, Invalidates(f.store, e);
    Runs.StepKeepsInv(f.store, e);
    EventSpares(f.store, e);
    TunnelsFollow(f, e);
    ForgetKeepsFresh(f.store, t, f.cache, name);
    assert PoolStep(f, e).cache == if e.what.Restarts? then map[] else Forget(f.cache, name);
  }

  lemma CachedUserIsFresh(f: Front, name: string)
    requires FrontInv(f)
    ensures var (g, user) := GetUserFromCache(f, name);
            && FrontInv(g) && g.store == f.store && g.tunnels == f.tunnels
            && (user.None? <==> name !in f.store.users)
            && (user.Some? ==> Fresh(f.store, name, user.value))
  {
  }

  /** After an eviction, a start or stop, or a new password, the next lookup sees the stored record as it then is. */
  lemma ChangesAreSeen(f: Front, name: string, now: int, off: bool, md5: string)
    requires FrontInv(f) && name in f.store.users
    ensures var u := f.store.users[name];
            && GetUserFromCache(Step(f, Evicts(name)), name).1 == Some(u)
            && GetUserFromCache(PoolStep(f, Runs.Event(now, Runs.SetsOff(name, off))), name).1 == Some(u.(off := off))
            && GetUserFromCache(PoolStep(f, Runs.Event(now, Runs.SetsPassword(name, md5))), name).1 ==
               Some(u.(passwordMD5 := md5))
  {
    Runs.EditedRecord(f.store, now, name, off, md5, 0);
  }

  /** A lookup that fills the cache with a record read earlier, while other operations ran, keeps the cache fresh
      exactly if the record is still fresh. A stale one stays until it is evicted or the user changes. */
  lemma FillKeepsFreshExactly(f: Front, name: string, user: User)
    requires CacheFresh(f)
    ensures CacheFresh(f.(cache := f.cache[name := user])) <==> Fresh(f.store, name, user)
  {
    var g := f.(cache := f.cache[name := user]);
    assert name in g.cache && g.cache[name] == user;
  }

  /** Looking up a user's tunnel through the cache finds what the store says: the tunnel of the node that the user is
      routed to, if that node is connected. Its limiters then match the user's stored limits, no other user is routed
      to it, and no other tunnel is touched. */
  lemma LookupAgrees(f: Front, name: string)
    requires FrontInv(f)
    ensures var (g, found) := GetTunnelByUser(f, name); var s := f.store;
            && FrontInv(g) && g.store == s
            && (found.UnknownUser? <==> name !in s.users)
            && (found.NoTunnel? <==> name in s.users && s.users[name].routeNodeID !in s.online)
            && (found.Via? ==>
                  var u := s.users[name];
                  && found.id == u.routeNodeID && found.id in s.online && s.nodes[found.id].bindUser == name
                  && g.tunnels == f.tunnels[found.id :=
                       Tun(if u.downloadRateLimit <= 0 then None else Some(u.downloadRateLimit),
                           if u.uploadRateLimit <= 0 then None else Some(u.uploadRateLimit))]
                  && forall other <- s.users :: s.users[other].routeNodeID == found.id ==> other == name)
            && (!found.Via? ==> g.tunnels == f.tunnels)
  {
    CachedUserIsFresh(f, name);
  }

  /** After a create is accepted, the new user's tunnel is held to the limits of the request: what the user downloads
      is read from the node, and what it uploads is written to it. A limit that is not positive means none. */
  lemma CreatedUserIsLimited(f: Front, req: CreateReq, now: int, monthLater: int)
    requires FrontInv(f) && req.userName != "" && CreateUser(f.store, req, now, monthLater).1 == Ok
    ensures var created := PoolStep(f, Runs.Event(now, Runs.Creates(req, monthLater)));
            var (g, found) := GetTunnelByUser(created, req.userName);
            && !found.UnknownUser?
            && (found.Via? ==>
                  && found.id in g.tunnels
                  && g.tunnels[found.id].readLimit ==
                     (if req.downloadRateLimit > 0 then Some(req.downloadRateLimit) else None)
                  && g.tunnels[found.id].writeLimit ==
                     (if req.uploadRateLimit > 0 then Some(req.uploadRateLimit) else None))
  {
    var e := Runs.Event(now, Runs.Creates(req, monthLater));
    Runs.CreatedRecord(f.store, req, now, monthLater);
    PoolStepKeeps(f, e);
    LookupAgrees(PoolStep(f, e), req.userName);
  }

  lemma StepKeeps(f: Front, e: Event)
    requires FrontInv(f) && (e.Pool? ==> Runs.Named(e.e))
    ensures FrontInv(Step(f, e))
  {
    match e
    case Pool(p) => PoolStepKeeps(f, p);
    case LooksUp(name) => LookupAgrees(f, name);
    case Evicts(_) =>
  }

  /** The front end as it starts over a consistent store. */
  function StartUp(s: Store): Front { Front(DeleteNodeOnlineData(s), map[], map[]) }

  lemma {:induction false} RunKeeps(s: Store, events: seq<Event>)
    requires OneToOne(s) && IndexesAgree(s)
    requires forall e <- events :: e.Pool? ==> Runs.Named(e.e)
    ensures FrontInv(Run(StartUp(s), events))
  {
    if events != [] {
      RunKeeps(s, events[..|events| - 1]);
      StepKeeps(Run(StartUp(s), events[..|events| - 1]), events[|events| - 1]);
    }
  }

  /** In every run of lookups, evictions, requests, connects, disconnects and traffic saves, a user's tunnel is found
      exactly when the node that the user is bound to is connected. */
  lemma LookupInEveryRun(s: Store, events: seq<Event>, name: string)
    requires OneToOne(s) && IndexesAgree(s)
    requires forall e <- events :: e.Pool? ==> Runs.Named(e.e)
    ensures var f := Run(StartUp(s), events);
            var (g, found) := GetTunnelByUser(f, name);
            forall id :: found == Via(id) <==> id in f.tunnels && id in f.store.nodes && name in f.store.users &&
                                                 f.store.nodes[id].bindUser == name
  {
    RunKeeps(s, events);
    LookupAgrees(Run(StartUp(s), events), name);
  }
}
