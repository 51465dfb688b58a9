/** Allocation taken apart at its Redis transactions: a node is popped from the free set in one step and bound, or put
    back, in a later one, with any number of allocations in flight for different users. */
module PoolSplit {
  import opened Prelude
  import opened PoolStore
  import opened PoolLogic
  import opened PoolInvariant

  /** A node in the hand of an operation, and the user record that the operation read or prepared. */
  datatype Hand = Hand(user: User, node: string, creating: bool)

  datatype Pool = Pool(store: Store, hands: map<string, Hand>)

  function Held(p: Pool): set<string> { set name <- p.hands :: p.hands[name].node }

  datatype What =
    | Connects(id: string, os: string, ip: string, time: string)
    | GoesOffline(id: string)
    | BeginsCreate(req: CreateReq, traffic: TrafficLimit, route: Route)
    | BeginsSwitch(name: string)     // a switch without a named node, or a failover
    | Finishes(name: string)
    | CreatesOn(create: CreateReq, monthLater: int)
    | SwitchesTo(name: string, nodeId: string)
    | Modifies(change: ModifyReq)
    | Deletes(name: string)

  datatype Event = Event(now: int, what: What)

  /** The provisos: one operation per user at a time, and a node in hand neither reconnects nor is named. */
  predicate Allowed(p: Pool, e: Event) {
    match e.what
    case Connects(id, _, _, _) => id != "" && id !in Held(p)
    case GoesOffline(_) => true
    case BeginsCreate(req, _, _) => req.userName != "" && req.userName !in p.hands && req.userName !in p.store.users
    case BeginsSwitch(name) => name !in p.hands && name in p.store.users
    case Finishes(name) => name in p.hands
    case CreatesOn(req, _) =>
      req.userName != "" && req.userName !in p.hands && Explicit(req) && req.route.value.nodeId !in Held(p)
    case SwitchesTo(name, nodeId) => name !in p.hands && nodeId != "" && nodeId !in Held(p)
    case Modifies(req) =>
      req.userName !in p.hands && (req.route.Some? ==> req.route.value.nodeId !in Held(p))
    case Deletes(name) => name !in p.hands
  }

  /** The second half of an allocation. */
  function Finish(p: Pool, name: string, now: int): (Pool, Outcome)
    requires name in p.hands
  {
    var h := p.hands[name];
    var (t, outcome) := if h.creating then BindNodeWithNewUser(p.store, h.node, h.user, now)
                        else SwitchOrPutBack(p.store, h.user, h.node, now);
    (Pool(t, p.hands - {name}), outcome)
  }

  /** The first half: an empty free set ends the operation at once. */
  ghost function Begin(p: Pool, user: User, creating: bool): Pool {
    var (t, chosen) := AllocateFreeNode(p.store);
    if chosen.None? then p.(store := t)
    else
      var u := if creating then user.(routeNodeID := chosen.value) else user;
      Pool(t, p.hands[user.userName := Hand(u, chosen.value, creating)])
  }

  ghost function Step(p: Pool, e: Event): Pool
    requires Allowed(p, e)
  {
    var s := p.store;
    match e.what
    case Connects(id, os, ip, time) => p.(store := Connect(s, id, os, ip, time, e.now))
    case GoesOffline(id) => p.(store := GoOffline(s, id))
    case BeginsCreate(req, traffic, route) => Begin(p, NewUser(req, traffic, route, ""), true)
    case BeginsSwitch(name) => Begin(p, s.users[name], false)
    case Finishes(name) => Finish(p, name, e.now).0
    case CreatesOn(req, monthLater) => p.(store := CreateUser(s, req, e.now, monthLater).0)
    case SwitchesTo(name, nodeId) => p.(store := SwitchUserRouteNode(s, name, nodeId, e.now).0)
    case Modifies(req) => p.(store := ModifyUser(s, req, e.now).0)
    case Deletes(name) => p.(store := DeleteUser(s, name, e.now).0)
  }

  /** The record in a hand is the one the user has, or will have. */
  predicate HandOk(s: Store, name: string, h: Hand) {
    && h.user.userName == name && name != ""
    && (h.creating <==> name !in s.users)
    && h.user.routeNodeID == if h.creating then h.node else s.users[name].routeNodeID
  }

  ghost predicate SplitInv(p: Pool) {
    && InvHeld(p.store, Held(p))
    && (forall name <- p.hands :: HandOk(p.store, name, p.hands[name]))
    && (forall a <- p.hands, b <- p.hands :: p.hands[a].node == p.hands[b].node ==> a == b)
  }

  /** Steps that leave the records of users in hand alone leave the hands in order. */
  lemma HandsStay(p: Pool, t: Store)
    requires SplitInv(p) && InvHeld(t, Held(p))
    requires forall name <- p.hands :: (name in t.users <==> name in p.store.users)
    requires forall name <- p.hands :: name in t.users ==> t.users[name].routeNodeID == p.store.users[name].routeNodeID
    ensures SplitInv(p.(store := t))
  {
    assert Held(p.(store := t)) == Held(p);
  }

  lemma HeldAfterBegin(p: Pool, name: string, h: Hand, t: Store)
    requires name !in p.hands
    ensures Held(Pool(t, p.hands[name := h])) == Held(p) + {h.node}
  {
    var hands := p.hands[name := h];
    assert forall other <- p.hands :: other in hands && hands[other] == p.hands[other];
    assert hands[name].node == h.node;
  }

  lemma BeginKeeps(p: Pool, user: User, creating: bool)
    requires SplitInv(p) && user.userName !in p.hands && user.userName != ""
    requires creating <==> user.userName !in p.store.users
    requires !creating ==> user.routeNodeID == p.store.users[user.userName].routeNodeID
    ensures SplitInv(Begin(p, user, creating))
  {
    AllocateKeepsInv(p.store, Held(p));
    var (t, chosen) := AllocateFreeNode(p.store);
    if chosen.Some? {
      HeldAfterBegin(p, user.userName, Begin(p, user, creating).hands[user.userName], t);
    }
  }

  lemma HeldAfterFinish(p: Pool, name: string, t: Store)
    requires name in p.hands
    requires forall other <- p.hands :: p.hands[other].node == p.hands[name].node ==> other == name
    ensures Held(Pool(t, p.hands - {name})) == Held(p) - {p.hands[name].node}
  {
    var q := Pool(t, p.hands - {name});
    forall n <- Held(p) - {p.hands[name].node} ensures n in Held(q) {
      var other :| other in p.hands && p.hands[other].node == n;
      assert other in q.hands;
    }
  }

  /** An allocation that was begun always ends by binding its own node to its own user. */
  lemma FinishKeeps(p: Pool, name: string, now: int)
    requires SplitInv(p) && name in p.hands
    ensures var (q, outcome) := Finish(p, name, now); var node := p.hands[name].node;
            && outcome == Ok && SplitInv(q)
            && name in q.store.users && q.store.users[name].routeNodeID == node
            && q.store.nodes[node].bindUser == name && node !in q.store.free && node !in Held(q)
  {
    var h := p.hands[name];
    var (q, outcome) := Finish(p, name, now);
    HeldAfterFinish(p, name, q.store);
    assert h.node in Held(p);
    if h.creating {
      BindKeepsInv(p.store, Held(p), h.node, h.user, now);
    } else {
      SwitchOrPutBackKeepsInv(p.store, Held(p), h.user, h.node, now);
    }
  }

  lemma NodeStepKeeps(p: Pool, e: Event)
    requires SplitInv(p) && Allowed(p, e) && (e.what.Connects? || e.what.GoesOffline?)
    ensures SplitInv(Step(p, e))
  {
    match e.what
    case Connects(id, os, ip, time) =>
      RegisterKeepsInv(p.store, Held(p), id, LoginRecord(Lookup(p.store, id), os, ip, time), e.now);
      HandsStay(p, Step(p, e).store);
    case GoesOffline(id) =>
      GoOfflineKeepsInv(p.store, Held(p), id);
      HandsStay(p, Step(p, e).store);
  }

  lemma CreateRequestKeeps(p: Pool, req: CreateReq, now: int, monthLater: int)
    requires SplitInv(p) && req.userName != "" && req.userName !in p.hands
    requires Explicit(req) && req.route.value.nodeId !in Held(p)
    ensures SplitInv(p.(store := CreateUser(p.store, req, now, monthLater).0))
  {
    CreateKeepsInv(p.store, Held(p), req, now, monthLater);
    HandsStay(p, CreateUser(p.store, req, now, monthLater).0);
  }

  lemma SwitchRequestKeeps(p: Pool, name: string, nodeId: string, now: int)
    requires SplitInv(p) && name !in p.hands && nodeId !in Held(p)
    ensures SplitInv(p.(store := SwitchUserRouteNode(p.store, name, nodeId, now).0))
  {
    SwitchUserKeepsInv(p.store, Held(p), name, nodeId, now);
    HandsStay(p, SwitchUserRouteNode(p.store, name, nodeId, now).0);
  }

  lemma ModifyRequestKeeps(p: Pool, req: ModifyReq, now: int)
    requires SplitInv(p) && req.userName !in p.hands && (req.route.Some? ==> req.route.value.nodeId !in Held(p))
    ensures SplitInv(p.(store := ModifyUser(p.store, req, now).0))
  {
    ModifyKeepsInv(p.store, Held(p), req, now);
    HandsStay(p, ModifyUser(p.store, req, now).0);
  }

  lemma DeleteRequestKeeps(p: Pool, name: string, now: int)
    requires SplitInv(p) && name !in p.hands
    ensures SplitInv(p.(store := DeleteUser(p.store, name, now).0))
  {
    DeleteKeepsInv(p.store, Held(p), name, now);
    HandsStay(p, DeleteUser(p.store, name, now).0);
  }

  lemma StepKeeps(p: Pool, e: Event)
    requires SplitInv(p) && Allowed(p, e)
    ensures SplitInv(Step(p, e))
  {
    match e.what
    case BeginsCreate(req, traffic, route) => BeginKeeps(p, NewUser(req, traffic, route, ""), true);
    case BeginsSwitch(name) => BeginKeeps(p, p.store.users[name], false);
    case Finishes(name) => FinishKeeps(p, name, e.now);
    case Connects(_, _, _, _) => NodeStepKeeps(p, e);
    case GoesOffline(_) => NodeStepKeeps(p, e);
    case CreatesOn(req, monthLater) => CreateRequestKeeps(p, req, e.now, monthLater);
    case SwitchesTo(name, nodeId) => SwitchRequestKeeps(p, name, nodeId, e.now);
    case Modifies(req) => ModifyRequestKeeps(p, req, e.now);
    case Deletes(name) => DeleteRequestKeeps(p, name, e.now);
  }

  ghost predicate ValidRun(p: Pool, events: seq<Event>)
    decreases |events|
  {
    events == [] || (Allowed(p, events[0]) && ValidRun(Step(p, events[0]), events[1..]))
  }

  ghost function Run(p: Pool, events: seq<Event>): Pool
    requires ValidRun(p, events)
    decreases |events|
  {
    if events == [] then p else Run(Step(p, events[0]), events[1..])
  }

  lemma {:induction false} RunKeeps(p: Pool, events: seq<Event>)
    requires SplitInv(p) && ValidRun(p, events)
    ensures SplitInv(Run(p, events))
    decreases |events|
  {
    if events != [] {
      StepKeeps(p, events[0]);
      RunKeeps(Step(p, events[0]), events[1..]);
    }
  }

  /** In every run every unbound online node is either free or in the hand of exactly one operation, never both, so
      that no two operations can end up binding the same node. */
  lemma FreeOrInOneHand(s: Store, events: seq<Event>, n: string)
    requires OneToOne(s) && IndexesAgree(s)
    requires ValidRun(Pool(DeleteNodeOnlineData(s), map[]), events)
    ensures var p := Run(Pool(DeleteNodeOnlineData(s), map[]), events);
            && (n in p.store.online && Unbound(p.store, n) ==> (n in p.store.free <==> n !in Held(p)))
            && (n in p.store.free ==> n in p.store.online && Unbound(p.store, n))
            && (n in Held(p) ==> Unbound(p.store, n))
            && (forall a <- p.hands, b <- p.hands :: p.hands[a].node == n == p.hands[b].node ==> a == b)
  {
    var p := Pool(DeleteNodeOnlineData(s), map[]);
    assert Held(p) == {};
    RunKeeps(p, events);
  }

  lemma OtherHandsStay(p: Pool, name: string, t: Store)
    requires SplitInv(p) && name in p.hands && InvHeld(t, Held(p) - {p.hands[name].node})
    requires forall n <- p.hands :: (n in t.users <==> n in p.store.users)
    requires forall n <- p.hands :: n in t.users ==> t.users[n].routeNodeID == p.store.users[n].routeNodeID
    ensures SplitInv(Pool(t, p.hands - {name}))
  {
    HeldAfterFinish(p, name, t);
  }

  /** A step that writes the record of one user, who has no node in hand, leaves the hands in order. */
  lemma OneUserWritten(p: Pool, name: string, t: Store, user: User)
    requires SplitInv(p) && name in p.hands && InvHeld(t, Held(p) - {p.hands[name].node})
    requires user.userName !in p.hands && t.users == p.store.users[user.userName := user]
    ensures SplitInv(Pool(t, p.hands - {name}))
  {
    OtherHandsStay(p, name, t);
  }

  /** A create that takes the node out of another operation's hand leaves the other hands in order. */
  lemma TakenFromHand(p: Pool, name: string, other: User, now: int)
    requires SplitInv(p) && name in p.hands
    requires other.userName != "" && other.userName !in p.store.users && other.userName !in p.hands
    requires other.routeNodeID == p.hands[name].node
    ensures var (t, bound) := BindNodeWithNewUser(p.store, p.hands[name].node, other, now);
            && bound == Ok && SplitInv(Pool(t, p.hands - {name}))
            && t.online == p.store.online
            && t.nodes[p.hands[name].node].bindUser == other.userName && p.hands[name].node in t.bind
  {
    var node := p.hands[name].node;
    var t := BindNodeWithNewUser(p.store, node, other, now).0;
    assert node in Held(p);
    BindKeepsInv(p.store, Held(p), node, other, now);
    OneUserWritten(p, name, t, other);
  }

  lemma MovedFromHand(p: Pool, name: string, other: User, now: int)
    requires SplitInv(p) && name in p.hands
    requires other.userName in p.store.users && other.userName !in p.hands
    requires other.routeNodeID == p.store.users[other.userName].routeNodeID
    ensures var (t, moved) := SwitchNodeByUser(p.store, other, p.hands[name].node, now);
            && moved == Ok && SplitInv(Pool(t, p.hands - {name})) && t.online == p.store.online
            && t.nodes[p.hands[name].node].bindUser == other.userName && p.hands[name].node in t.bind
  {
    var node := p.hands[name].node;
    assert node in Held(p);
    SwitchKeepsInv(p.store, Held(p), other, node, now);
    OtherHandsStay(p, name, SwitchNodeByUser(p.store, other, node, now).0);
  }

  /** An operation whose node was bound by another one is refused. Unless it is a create and the node is offline, it
      puts the node, bound as it is, into the free set. */
  lemma FinishRefused(p: Pool, name: string, now: int)
    requires name in p.hands
    requires var h := p.hands[name]; h.node in p.store.nodes && p.store.nodes[h.node].bindUser != ""
    requires SplitInv(Pool(p.store, p.hands - {name}))
    ensures var h := p.hands[name]; var (q, outcome) := Finish(p, name, now);
            && outcome != Ok && q.store.nodes == p.store.nodes && q.store.bind == p.store.bind
            && (h.node in q.store.free <==> !h.creating || h.node in p.store.online)
            && (SplitInv(q) <==> h.creating && h.node !in p.store.online)
  {
    var h := p.hands[name];
    var q := Finish(p, name, now).0;
    if h.creating && h.node !in p.store.online {
      assert q.store == p.store;
    } else {
      assert h.node in q.store.free && q.store.nodes == p.store.nodes;
    }
  }

  /** The proviso that nobody names a node in hand is needed: when a second create names it, the operation that has it
      in hand is refused and puts it back into the free set although it is bound by now. The invariant survives exactly
      if that operation is a create, whose put-back looks, and the node is offline. */
  lemma NamedWhileInHand(p: Pool, name: string, other: User, now: int)
    requires SplitInv(p) && name in p.hands
    requires other.userName != "" && other.userName !in p.store.users && other.userName !in p.hands
    requires other.routeNodeID == p.hands[name].node
    ensures var node := p.hands[name].node;
            var (t, bound) := BindNodeWithNewUser(p.store, node, other, now);
            var (q, outcome) := Finish(p.(store := t), name, now);
            && bound == Ok && outcome != Ok && q.store.nodes[node].bindUser == other.userName && node in q.store.bind
            && (node in q.store.free <==> !p.hands[name].creating || node in p.store.online)
            && (SplitInv(q) <==> p.hands[name].creating && node !in p.store.online)
  {
    TakenFromHand(p, name, other, now);
    var t := BindNodeWithNewUser(p.store, p.hands[name].node, other, now).0;
    FinishRefused(p.(store := t), name, now);
  }

  /** The same for an operation that moves a user who has one already to the node in hand. */
  lemma MovedWhileInHand(p: Pool, name: string, other: User, now: int)
    requires SplitInv(p) && name in p.hands
    requires other.userName in p.store.users && other.userName !in p.hands
    requires other.routeNodeID == p.store.users[other.userName].routeNodeID
    ensures var node := p.hands[name].node;
            var (t, moved) := SwitchNodeByUser(p.store, other, node, now);
            var (q, outcome) := Finish(p.(store := t), name, now);
            && moved == Ok && outcome != Ok && q.store.nodes[node].bindUser == other.userName && node in q.store.bind
            && (node in q.store.free <==> !p.hands[name].creating || node in p.store.online)
            && (SplitInv(q) <==> p.hands[name].creating && node !in p.store.online)
  {
    MovedFromHand(p, name, other, now);
    var t := SwitchNodeByUser(p.store, other, p.hands[name].node, now).0;
    FinishRefused(p.(store := t), name, now);
  }

  /** A switch request can name a node in hand only if it is online, so then the invariant is always lost. */
  lemma SwitchedWhileInHand(p: Pool, name: string, other: string, now: int)
    requires SplitInv(p) && name in p.hands && other in p.store.users && other !in p.hands
    ensures var node := p.hands[name].node;
            var (t, outcome) := SwitchUserRouteNode(p.store, other, node, now);
            && (outcome == Ok <==> node in p.store.online)
            && (outcome == Ok ==> !SplitInv(Finish(p.(store := t), name, now).0))
            && (outcome != Ok ==> t == p.store)
  {
    var node := p.hands[name].node;
    assert node in Held(p);
    MovedWhileInHand(p, name, p.store.users[other], now);
  }

  /** A modify does not ask for the node to be online. */
  lemma ModifiedWhileInHand(p: Pool, name: string, req: ModifyReq, now: int)
    requires SplitInv(p) && name in p.hands && req.userName in p.store.users && req.userName !in p.hands
    requires req.route.Some? && req.traffic.Some? && req.route.value.nodeId == p.hands[name].node
    requires CheckRoute(p.store, req.route.value) == Ok && TrafficOk(req.traffic.value, now)
    ensures var node := p.hands[name].node;
            var (t, outcome) := ModifyUser(p.store, req, now);
            && outcome == Ok
            && (SplitInv(Finish(p.(store := t), name, now).0) <==> p.hands[name].creating && node !in p.store.online)
  {
    assert p.hands[name].node in Held(p);
    var traffic, route := req.traffic.value, req.route.value;
    var user := p.store.users[req.userName].(
                  startTime := traffic.startTime, endTime := traffic.endTime, totalTraffic := traffic.totalTraffic,
                  routeMode := route.mode, updateRouteIntervals := route.intervals);
    MovedWhileInHand(p, name, user, now);
    assert ModifyUser(p.store, req, now) == SwitchNodeByUser(p.store, user, route.nodeId, now);
  }

  /** The proviso that a node in hand does not reconnect is needed: it would be free and in hand at once. */
  lemma ReconnectWhileInHand(p: Pool, id: string, os: string, ip: string, time: string, now: int)
    requires SplitInv(p) && id != ""
    ensures SplitInv(p.(store := Connect(p.store, id, os, ip, time, now))) <==> id !in Held(p)
  {
    var t := Connect(p.store, id, os, ip, time, now);
    var q := p.(store := t);
    assert Held(q) == Held(p);
    if id !in Held(p) {
      RegisterKeepsInv(p.store, Held(p), id, LoginRecord(Lookup(p.store, id), os, ip, time), now);
      HandsStay(p, t);
    } else {
      assert id in t.free;
    }
  }
}
