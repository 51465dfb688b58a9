/** Free nodes are handed out in the order in which they became free. */
module PoolOrder {
  import opened Prelude
  import opened PoolStore
  import opened PoolLogic
  import opened PoolInvariant
  import opened PoolRuns

  /** A node connects only when it is not online: a live old tunnel is closed, and so disconnected, first. */
  predicate ConnectsOffline(s: Store, e: Event) { e.what.Connects? ==> e.what.id !in s.online }

  ghost predicate Orderly(s: Store, events: seq<Event>) {
    && (forall e <- events :: Named(e))
    && (forall i :: 0 <= i < |events| ==> ConnectsOffline(Run(s, events[..i]), events[i]))
  }

  /** When each free node entered the free set: the time of the last event before which it was not in it. */
  ghost function FreeSince(s: Store, events: seq<Event>): map<string, int> {
    if events == [] then map[]
    else
      var init, now := events[..|events| - 1], events[|events| - 1].now;
      var before, since := Run(s, init).free, FreeSince(s, init);
      map n | n in Run(s, events).free :: if n in before && n in since then since[n] else now
  }

  /** A step leaves the scores of nodes that stay free, and scores those that become free with its own time. */
  ghost predicate ScoresStay(s: Store, t: Store, now: int) {
    forall n <- t.free :: t.free[n] == if n in s.free then s.free[n] else now
  }

  lemma ConnectScores(s: Store, id: string, os: string, ip: string, time: string, now: int)
    requires Inv(s) && id !in s.online
    ensures ScoresStay(s, Connect(s, id, os, ip, time, now), now)
  {
  }

  lemma AllocatedSwitchScores(s: Store, name: string, now: int)
    requires Inv(s) && name in s.users
    ensures var (t, chosen) := AllocateFreeNode(s);
            chosen.Some? ==> ScoresStay(s, SwitchOrPutBack(t, s.users[name], chosen.value, now).0, now)
  {
    AllocateKeepsInv(s, {});
    var (t, chosen) := AllocateFreeNode(s);
    if chosen.Some? {
      SwitchOrPutBackKeepsInv(t, {chosen.value}, s.users[name], chosen.value, now);
    }
  }

  lemma DisconnectScores(s: Store, id: string, now: int)
    requires Inv(s)
    ensures ScoresStay(s, Disconnect(s, id, now), now)
  {
    if id in s.nodes && s.nodes[id].bindUser != "" {
      GoOfflineKeepsInv(s, {}, id);
      AllocatedSwitchScores(s.(online := s.online - {id}), s.nodes[id].bindUser, now);
    }
  }

  lemma CreateScores(s: Store, req: CreateReq, now: int, monthLater: int)
    requires Inv(s) && req.userName != ""
    ensures ScoresStay(s, CreateUser(s, req, now, monthLater).0, now)
  {
    CreateKeepsInv(s, {}, req, now, monthLater);
  }

  lemma DeleteScores(s: Store, name: string, now: int)
    requires Inv(s)
    ensures ScoresStay(s, DeleteUser(s, name, now).0, now)
  {
  }

  lemma ModifyScores(s: Store, req: ModifyReq, now: int)
    requires Inv(s)
    ensures ScoresStay(s, ModifyUser(s, req, now).0, now)
  {
  }

  lemma SwitchScores(s: Store, name: string, nodeId: string, now: int)
    requires Inv(s)
    ensures ScoresStay(s, SwitchUserRouteNode(s, name, nodeId, now).0, now)
  {
    if name in s.users && nodeId == "" {
      AllocatedSwitchScores(s, name, now);
    } else if name in s.users && CheckNode(s, nodeId) == Ok {
      SwitchOrPutBackKeepsInv(s, {}, s.users[name], nodeId, now);
    }
  }

  lemma StepScores(s: Store, e: Event)
    requires Inv(s) && Named(e) && ConnectsOffline(s, e)
    ensures ScoresStay(s, Step(s, e).0, e.now)
  {
    match e.what
    case Connects(id, os, ip, time) => ConnectScores(s, id, os, ip, time, e.now);
    case Disconnects(id) => DisconnectScores(s, id, e.now);
    case Creates(req, monthLater) => CreateScores(s, req, e.now, monthLater);
    case Deletes(name) => DeleteScores(s, name, e.now);
    case Modifies(req) => ModifyScores(s, req, e.now);
    case Switches(name, nodeId) => SwitchScores(s, name, nodeId, e.now);
    case SetsOff(_, _) =>
    case SetsPassword(_, _) =>
    case SavesTraffic(_, _) =>
    case Restarts =>
  }

  lemma OrderlyBefore(s: Store, events: seq<Event>)
    requires Orderly(s, events) && events != []
    ensures var init, e := events[..|events| - 1], events[|events| - 1];
            Orderly(s, init) && Named(e) && ConnectsOffline(Run(s, init), e)
  {
    var init := events[..|events| - 1];
    assert events[|events| - 1] in events && forall e <- init :: e in events;
    forall i | 0 <= i < |init| ensures ConnectsOffline(Run(s, init[..i]), init[i]) {
      assert init[..i] == events[..i];
    }
  }

  /** In every orderly run the score of a free node is the time since which it has been free. */
  lemma {:induction false} ScoresAreTimes(s: Store, events: seq<Event>)
    requires OneToOne(s) && IndexesAgree(s)
    requires Orderly(DeleteNodeOnlineData(s), events)
    ensures Run(DeleteNodeOnlineData(s), events).free == FreeSince(DeleteNodeOnlineData(s), events)
  {
    var start := DeleteNodeOnlineData(s);
    if events != [] {
      var init, e := events[..|events| - 1], events[|events| - 1];
      OrderlyBefore(start, events);
      ScoresAreTimes(s, init);
      RunKeepsInv(s, init);
      StepScores(Run(start, init), e);
    }
  }

  /** In every orderly run, allocation takes a node that has been free at least as long as every other one, and among
      those free since the same second the first by name. */
  lemma LongestFreeFirst(s: Store, events: seq<Event>, n: string)
    requires OneToOne(s) && IndexesAgree(s)
    requires Orderly(DeleteNodeOnlineData(s), events)
    ensures var start := DeleteNodeOnlineData(s);
            var chosen, since := AllocateFreeNode(Run(start, events)).1, FreeSince(start, events);
            && (chosen.None? <==> since == map[])
            && (chosen.Some? ==> chosen.value in since)
            && (chosen.Some? && n in since ==>
                  since[chosen.value] < since[n] || (since[chosen.value] == since[n] && LexLe(chosen.value, n)))
  {
    ScoresAreTimes(s, events);
  }

  ghost predicate ClockForward(events: seq<Event>) {
    forall j, k :: 0 <= j <= k < |events| ==> events[j].now <= events[k].now
  }

  /** Free after the first `i` events and ever since. */
  ghost predicate FreeFrom(s: Store, events: seq<Event>, i: nat, n: string) {
    forall j :: i <= j <= |events| ==> n in Run(s, events[..j]).free
  }

  lemma FreeFromBefore(s: Store, events: seq<Event>, i: nat, n: string)
    requires FreeFrom(s, events, i, n) && i < |events|
    ensures FreeFrom(s, events[..|events| - 1], i, n) && n in Run(s, events).free
  {
    var init := events[..|events| - 1];
    assert events[..|events|] == events;
    forall j | i <= j <= |init| ensures n in Run(s, init[..j]).free {
      assert init[..j] == events[..j];
    }
  }

  lemma {:induction false} SinceKept(s: Store, events: seq<Event>, i: nat, n: string)
    requires i <= |events| && FreeFrom(s, events, i, n) && n in FreeSince(s, events[..i])
    ensures n in FreeSince(s, events) && FreeSince(s, events)[n] == FreeSince(s, events[..i])[n]
  {
    if i == |events| {
      assert events[..i] == events;
    } else {
      var init := events[..|events| - 1];
      FreeFromBefore(s, events, i, n);
      assert init[..i] == events[..i] && init[..|init|] == init;
      SinceKept(s, init, i, n);
      assert n in Run(s, init[..|init|]).free;
    }
  }

  lemma {:induction false} SinceBounded(s: Store, events: seq<Event>, n: string)
    requires ClockForward(events) && n in FreeSince(s, events)
    ensures events != [] && FreeSince(s, events)[n] <= events[|events| - 1].now
  {
    var init := events[..|events| - 1];
    if n in FreeSince(s, init) {
      SinceBounded(s, init, n);
    }
  }

  lemma {:induction false} SinceAtLeast(s: Store, events: seq<Event>, i: nat, n: string)
    requires ClockForward(events) && i < |events| && n !in Run(s, events[..i]).free && n in FreeSince(s, events)
    ensures FreeSince(s, events)[n] >= events[i].now
  {
    var init := events[..|events| - 1];
    if i < |init| {
      assert init[..i] == events[..i];
      if n in Run(s, init).free && n in FreeSince(s, init) {
        SinceAtLeast(s, init, i, n);
      }
    } else {
      assert init == events[..i];
    }
  }

  /** A node that was free before the clock ticked, and has been ever since, is handed out before any node that became
      free after the tick. */
  lemma FreedFirstTakenFirst(s: Store, events: seq<Event>, i: nat, first: string, later: string)
    requires OneToOne(s) && IndexesAgree(s)
    requires Orderly(DeleteNodeOnlineData(s), events) && ClockForward(events)
    requires 0 < i < |events| && events[i - 1].now < events[i].now
    requires FreeFrom(DeleteNodeOnlineData(s), events, i, first)
    requires later !in Run(DeleteNodeOnlineData(s), events[..i]).free
    ensures AllocateFreeNode(Run(DeleteNodeOnlineData(s), events)).1 != Some(later)
  {
    var start := DeleteNodeOnlineData(s);
    OrderlyPrefix(start, events, i);
    ScoresAreTimes(s, events[..i]);
    SinceKept(start, events, i, first);
    SinceBounded(start, events[..i], first);
    LongestFreeFirst(s, events, first);
    if later in FreeSince(start, events) {
      SinceAtLeast(start, events, i, later);
    }
  }

  lemma OrderlyPrefix(s: Store, events: seq<Event>, i: nat)
    requires Orderly(s, events) && i <= |events|
    ensures Orderly(s, events[..i])
  {
    assert forall e <- events[..i] :: e in events;
    forall j | 0 <= j < i ensures ConnectsOffline(Run(s, events[..i][..j]), events[..i][j]) {
      assert events[..i][..j] == events[..j];
    }
  }

  /** Two nodes that connect one after the other: the first one is handed out first. */
  lemma FirstConnectedFirst(s: Store, a: string, b: string, ta: int, tb: int, os: string, ip: string, time: string)
    requires OneToOne(s) && IndexesAgree(s) && a !in s.nodes && b !in s.nodes && a != b && a != "" && b != "" && ta < tb
    ensures var start := DeleteNodeOnlineData(s);
            AllocateFreeNode(Connect(Connect(start, a, os, ip, time, ta), b, os, ip, time, tb)).1 == Some(a)
  {
    var t := Connect(Connect(DeleteNodeOnlineData(s), a, os, ip, time, ta), b, os, ip, time, tb);
    assert t.free == map[a := ta, b := tb];
    assert a in t.free && t.free != map[];
    assert IsMin(t.free, MinFree(t.free).value);
    assert NotAfter(t.free, MinFree(t.free).value, a);
  }
}
