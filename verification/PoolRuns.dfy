/** Whole runs of the node pool, and the exact conditions under which single operations leave the invariant. */
module PoolRuns {
  import opened Prelude
  import opened PoolStore
  import opened PoolLogic
  import opened PoolInvariant

  datatype What =
    | Connects(id: string, os: string, ip: string, time: string)
    | Disconnects(id: string)
    | Creates(create: CreateReq, monthLater: int)
    | Deletes(name: string)
    | Modifies(change: ModifyReq)
    | Switches(name: string, nodeId: string)
    | SetsOff(name: string, off: bool)
    | SetsPassword(name: string, passwordMD5: string)
    | SavesTraffic(name: string, bytes: int)
    | Restarts

  datatype Event = Event(now: int, what: What)

  /** Names of users and nodes are not empty: the empty name stands for "none". */
  predicate Named(e: Event) {
    (e.what.Connects? ==> e.what.id != "") && (e.what.Creates? ==> e.what.create.userName != "")
  }

  /** A record read, changed and saved in one go, as the start/stop, password and traffic operations do. */
  function Edit(s: Store, name: string, change: User -> User): (Store, Outcome) {
    if name in s.users then (SaveUser(s, change(s.users[name])), Ok) else (s, UserNotExist)
  }

  ghost function Step(s: Store, e: Event): (Store, Outcome) {
    match e.what
    case Connects(id, os, ip, time) => (Connect(s, id, os, ip, time, e.now), Ok)
    case Disconnects(id) => (Disconnect(s, id, e.now), Ok)
    case Creates(req, monthLater) => CreateUser(s, req, e.now, monthLater)
    case Deletes(name) => DeleteUser(s, name, e.now)
    case Modifies(req) => ModifyUser(s, req, e.now)
    case Switches(name, nodeId) => SwitchUserRouteNode(s, name, nodeId, e.now)
    case SetsOff(name, off) => Edit(s, name, (u: User) => u.(off := off))
    case SetsPassword(name, md5) => Edit(s, name, (u: User) => u.(passwordMD5 := md5))
    case SavesTraffic(name, bytes) => Edit(s, name, (u: User) => u.(currentTraffic := Wrap64(u.currentTraffic + bytes)))
    case Restarts => (DeleteNodeOnlineData(s), Ok)
  }

  ghost function Run(s: Store, events: seq<Event>): Store {
    if events == [] then s else Step(Run(s, events[..|events| - 1]), events[|events| - 1]).0
  }

  lemma EditKeepsInv(s: Store, name: string, change: User -> User)
    requires Inv(s)
    requires forall u :: change(u).userName == u.userName && change(u).routeNodeID == u.routeNodeID
    ensures Inv(Edit(s, name, change).0)
  {
    if name in s.users {
      SaveKeepsInv(s, {}, change(s.users[name]));
    }
  }

  lemma StepKeepsInv(s: Store, e: Event)
    requires Inv(s) && Named(e)
    ensures Inv(Step(s, e).0)
  {
    match e.what
    case Connects(id, os, ip, time) => RegisterKeepsInv(s, {}, id, LoginRecord(Lookup(s, id), os, ip, time), e.now);
    case Disconnects(id) => DisconnectKeepsInv(s, {}, id, e.now);
    case Creates(req, monthLater) => CreateKeepsInv(s, {}, req, e.now, monthLater);
    case Deletes(name) => DeleteKeepsInv(s, {}, name, e.now);
    case Modifies(req) => ModifyKeepsInv(s, {}, req, e.now);
    case Switches(name, nodeId) => SwitchUserKeepsInv(s, {}, name, nodeId, e.now);
    case SetsOff(name, off) => EditKeepsInv(s, name, (u: User) => u.(off := off));
    case SetsPassword(name, md5) => EditKeepsInv(s, name, (u: User) => u.(passwordMD5 := md5));
    case SavesTraffic(name, bytes) =>
      EditKeepsInv(s, name, (u: User) => u.(currentTraffic := Wrap64(u.currentTraffic + bytes)));
    case Restarts =>
  }

  /** From the cleared start-up state of any consistent store, every run of atomic operations keeps the binding one
      to one, the indexes right and the free set equal to the unbound online nodes. */
  lemma {:induction false} RunKeepsInv(s: Store, events: seq<Event>)
    requires OneToOne(s) && IndexesAgree(s)
    requires forall e <- events :: Named(e)
    ensures Inv(Run(DeleteNodeOnlineData(s), events))
  {
    if events != [] {
      RunKeepsInv(s, events[..|events| - 1]);
      StepKeepsInv(Run(DeleteNodeOnlineData(s), events[..|events| - 1]), events[|events| - 1]);
    }
  }

  /** What the invariant means for users: routes and bindings determine each other, so no two users share a node; and
      the free set is disjoint from the bound nodes. */
  lemma NoNodeServesTwo(s: Store, events: seq<Event>)
    requires OneToOne(s) && IndexesAgree(s)
    requires forall e <- events :: Named(e)
    ensures var t := Run(DeleteNodeOnlineData(s), events);
            && (forall u <- t.users, n <- t.nodes :: t.users[u].routeNodeID == n <==> t.nodes[n].bindUser == u)
            && (forall u <- t.users, v <- t.users :: t.users[u].routeNodeID == t.users[v].routeNodeID ==> u == v)
            && t.free.Keys !! t.bind
            && t.free.Keys == t.online - t.bind
  {
    RunKeepsInv(s, events);
  }

  /** Starting, stopping, a new password and saved traffic change that and nothing else, for a user that exists. */
  lemma EditedRecord(s: Store, now: int, name: string, off: bool, md5: string, bytes: int)
    requires Inv(s)
    ensures var at := (what: What) => Step(s, Event(now, what));
            if name !in s.users then
              forall what :: what in [SetsOff(name, off), SetsPassword(name, md5), SavesTraffic(name, bytes)] ==>
                               at(what) == (s, UserNotExist)
            else
              var u := s.users[name];
              && at(SetsOff(name, off)) == (s.(users := s.users[name := u.(off := off)]), Ok)
              && at(SetsPassword(name, md5)) == (s.(users := s.users[name := u.(passwordMD5 := md5)]), Ok)
              && at(SavesTraffic(name, bytes)) ==
                 (s.(users := s.users[name := u.(currentTraffic := Wrap64(u.currentTraffic + bytes))]), Ok)
  {
  }

  predicate Wrong(t: TrafficLimit, now: int) { t.endTime <= t.startTime || t.endTime < now || t.totalTraffic <= 0 }

  /** A refused create says truly why: for its user, its node, its limits, or for want of a free node. */
  lemma CreateRefusal(s: Store, req: CreateReq, now: int, monthLater: int)
    requires Inv(s) && req.userName != ""
    ensures var node := if req.route.Some? then req.route.value.nodeId else "";
            match CreateUser(s, req, now, monthLater).1
            case UserExists => req.userName in s.users
            case InvalidRoute => req.route.Some? && req.route.value.mode in {1, 2, 3}
            case NodeNotExist => node != "" && node !in s.nodes
            case AlreadyBound => node in s.nodes && s.nodes[node].bindUser != ""
            case InvalidTraffic => req.traffic.Some? && Wrong(req.traffic.value, now)
            case NoFreeNode => node == "" && s.free == map[]
            case outcome => outcome == Ok
  {
    CreateKeepsInv(s, {}, req, now, monthLater);
  }

  lemma ModifyRefusal(s: Store, req: ModifyReq, now: int)
    requires Inv(s)
    ensures match ModifyUser(s, req, now).1
            case MissingArgument => req.traffic.None? || req.route.None?
            case InvalidRoute => req.route.Some? && req.route.value.mode in {1, 2, 3}
            case NodeNotExist => req.route.Some? && req.route.value.nodeId !in s.nodes
            case AlreadyBound =>
              req.route.Some? && req.route.value.nodeId in s.nodes && s.nodes[req.route.value.nodeId].bindUser != ""
            case InvalidTraffic => req.traffic.Some? && Wrong(req.traffic.value, now)
            case UserNotExist => req.userName !in s.users
            case outcome => outcome == Ok
  {
    ModifyKeepsInv(s, {}, req, now);
  }

  lemma SwitchRefusal(s: Store, name: string, node: string, now: int)
    requires Inv(s)
    ensures match SwitchUserRouteNode(s, name, node, now).1
            case UserNotExist => name !in s.users
            case NodeNotExist => node != "" && node !in s.nodes
            case AlreadyBound => node in s.nodes && s.nodes[node].bindUser != ""
            case NodeOffline => node in s.nodes && node !in s.online
            case NoFreeNode => node == "" && s.free == map[]
            case outcome => outcome == Ok
  {
    SwitchUserKeepsInv(s, {}, name, node, now);
  }

  /** No refused create, modify or switch changes anything. */
  lemma RefusalChangesNothing(s: Store, e: Event)
    requires Inv(s) && Named(e) && (e.what.Creates? || e.what.Modifies? || e.what.Switches?)
    ensures Step(s, e).1 != Ok ==> Step(s, e).0 == s
  {
    match e.what
    case Creates(req, monthLater) => CreateKeepsInv(s, {}, req, e.now, monthLater);
    case Modifies(req) => ModifyKeepsInv(s, {}, req, e.now);
    case Switches(name, nodeId) => SwitchUserKeepsInv(s, {}, name, nodeId, e.now);
  }

  // ---------------------------------------------------------------- what the records hold

  /** The record of a created user holds what the request asked for: an allowance in units of 2^30 bytes, or by default
      1000 of them for the month from now, with nothing used and the user switched on. */
  lemma CreatedRecord(s: Store, req: CreateReq, now: int, monthLater: int)
    requires Inv(s) && req.userName != "" && CreateUser(s, req, now, monthLater).1 == Ok
    ensures req.userName in CreateUser(s, req, now, monthLater).0.users
    ensures var u := CreateUser(s, req, now, monthLater).0.users[req.userName];
            && u.userName == req.userName && u.passwordMD5 == req.passwordMD5
            && u.uploadRateLimit == req.uploadRateLimit && u.downloadRateLimit == req.downloadRateLimit
            && u.currentTraffic == 0 && u.updateRouteTime == 0 && !u.off
            && (req.traffic.Some? ==>
                  && u.startTime == req.traffic.value.startTime && u.endTime == req.traffic.value.endTime
                  && u.totalTraffic == Wrap64(req.traffic.value.totalTraffic * 1073741824))
            && (req.traffic.None? ==>
                  u.startTime == now && u.endTime == monthLater && u.totalTraffic == 1000 * 1073741824)
            && u.routeMode == (if req.route.Some? then req.route.value.mode else 1)
            && u.updateRouteIntervals == (if req.route.Some? then req.route.value.intervals else 0)
  {
    CreateKeepsInv(s, {}, req, now, monthLater);
  }

  /** The record of a modified user holds the period, the allowance as given, the mode and the interval of the request;
      everything else but the route stays. */
  lemma ModifiedRecord(s: Store, req: ModifyReq, now: int)
    requires Inv(s) && ModifyUser(s, req, now).1 == Ok
    ensures req.userName in s.users && req.userName in ModifyUser(s, req, now).0.users
    ensures req.traffic.Some? && req.route.Some?
    ensures var u, before := ModifyUser(s, req, now).0.users[req.userName], s.users[req.userName];
            && u.startTime == req.traffic.value.startTime && u.endTime == req.traffic.value.endTime
            && u.totalTraffic == req.traffic.value.totalTraffic
            && u.routeMode == req.route.value.mode && u.updateRouteIntervals == req.route.value.intervals
            && u.routeNodeID == req.route.value.nodeId
            && u.userName == before.userName && u.passwordMD5 == before.passwordMD5
            && u.currentTraffic == before.currentTraffic && u.updateRouteTime == before.updateRouteTime
            && u.off == before.off
            && u.uploadRateLimit == before.uploadRateLimit && u.downloadRateLimit == before.downloadRateLimit
  {
    ModifyKeepsInv(s, {}, req, now);
  }

  /** The record of a connected node holds its present system, address and login time; a known node keeps its
      registration time, its user and its delay. */
  lemma ConnectedRecord(s: Store, id: string, os: string, ip: string, time: string, now: int)
    ensures var t := Connect(s, id, os, ip, time, now);
            && id in t.nodes && id in t.online && t.nodes[id].os == os && t.nodes[id].ip == ip
            && t.nodes[id].loginAt == time
            && t.nodes[id].registerAt == (if id in s.nodes then s.nodes[id].registerAt else time)
            && t.nodes[id].bindUser == (if id in s.nodes then s.nodes[id].bindUser else "")
            && t.nodes[id].netDelay == (if id in s.nodes then s.nodes[id].netDelay else 0)
            && (forall n <- s.nodes :: n != id ==> n in t.nodes && t.nodes[n] == s.nodes[n])
  {
  }

  // ---------------------------------------------------------------- where the invariant is lost

  /** A create accepts the empty user name, and exactly then breaks the invariant. */
  lemma EmptyNameBreaks(s: Store, req: CreateReq, now: int, monthLater: int)
    requires Inv(s)
    ensures var (t, outcome) := CreateUser(s, req, now, monthLater);
            outcome == Ok ==> (Inv(t) <==> req.userName != "")
  {
    var (t, outcome) := CreateUser(s, req, now, monthLater);
    if req.userName != "" {
      CreateKeepsInv(s, {}, req, now, monthLater);
    } else if outcome == Ok {
      assert "" in t.users;
    }
  }

  /** Such a create is accepted: it takes no more than a valid request and an unbound node. */
  lemma EmptyNameAccepted(s: Store, req: CreateReq, now: int, monthLater: int)
    requires Inv(s) && req.userName == "" && CreateWellFormed(s, req, now)
    requires Explicit(req) && Unbound(s, req.route.value.nodeId)
    ensures var (t, outcome) := CreateUser(s, req, now, monthLater); outcome == Ok && !Inv(t) && "" in t.users
  {
    EmptyNameBreaks(s, req, now, monthLater);
  }

  /** The put-back of `BindNodeWithNewUser` frees a node that is bound, unless that node is offline. */
  lemma PutBackOfBoundNode(s: Store, id: string, user: User, now: int)
    requires Inv(s) && id in s.nodes && s.nodes[id].bindUser != ""
    ensures var (t, outcome) := BindNodeWithNewUser(s, id, user, now);
            outcome == AlreadyBound && (Inv(t) <==> id !in s.online)
  {
    var t := BindNodeWithNewUser(s, id, user, now).0;
    if id in s.online {
      assert id in t.free;
    }
  }

  /** A connection reads the node's record and registers it later, in a store that other operations have changed since.
      The invariant survives exactly if the node's binding is the same again. */
  lemma StaleRegistration(s: Store, t: Store, id: string, os: string, ip: string, time: string, now: int)
    requires Inv(t) && id != ""
    ensures Inv(Register(t, id, LoginRecord(Lookup(s, id), os, ip, time), now))
            <==> BindingOf(s, id) == BindingOf(t, id)
  {
    RegisterKeepsInvExactly(t, {}, id, LoginRecord(Lookup(s, id), os, ip, time), now);
  }

  /** So a create that names the node in between breaks it: a create does not ask for the node to be online. */
  lemma BoundWhileConnecting(s: Store, req: CreateReq, id: string, os: string, ip: string, time: string,
                             now: int, monthLater: int)
    requires Inv(s) && req.userName != "" && CreateWellFormed(s, req, now)
    requires Explicit(req) && req.route.value.nodeId == id && Unbound(s, id)
    ensures var (t, outcome) := CreateUser(s, req, now, monthLater);
            && outcome == Ok && Inv(t)
            && !Inv(Register(t, id, LoginRecord(Lookup(s, id), os, ip, time), now))
  {
    CreateKeepsInv(s, {}, req, now, monthLater);
    var t := CreateUser(s, req, now, monthLater).0;
    assert t.users[req.userName].routeNodeID == id && BindingOf(t, id) == req.userName;
    StaleRegistration(s, t, id, os, ip, time, now);
  }

  /** A node that connects again while its old tunnel is alive: its record is read, then the old tunnel is closed,
      which disconnects the node, and then the record read before is written back. */
  ghost function Reconnect(s: Store, id: string, os: string, ip: string, time: string, now: int): Store {
    var record := LoginRecord(Lookup(s, id), os, ip, time);
    Register(Disconnect(s, id, now), id, record, now)
  }

  /** Reconnecting loses the one-to-one binding exactly when closing the old tunnel moved the node's user away. */
  lemma ReconnectExact(s: Store, id: string, os: string, ip: string, time: string, now: int)
    requires Inv(s) && id in s.online
    ensures Inv(Reconnect(s, id, os, ip, time, now)) <==> s.nodes[id].bindUser == "" || s.free == map[]
  {
    DisconnectKeepsInv(s, {}, id, now);
    var t := Disconnect(s, id, now);
    var name := s.nodes[id].bindUser;
    if name == "" || s.free == map[] {
      RegisterKeepsInv(t, {}, id, LoginRecord(Lookup(s, id), os, ip, time), now);
    } else {
      var u := Reconnect(s, id, os, ip, time, now);
      assert u.nodes[id].bindUser == name && u.users[name].routeNodeID != id;
    }
  }
}
