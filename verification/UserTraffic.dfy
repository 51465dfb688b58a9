/** The traffic counters and the timer's flush, as the objects that sessions and the timer update. */
module UserTraffic {
  import opened Prelude
  import Store = PoolStore
  import opened TrafficRuns

  /** The metering state of `TrafficRuns` between flushes, with these counters pending. */
  ghost function Metering(users: Counters): State { INITIAL.(pending := users) }

  class Counter {
    var users: Counters

    /** All that was added for each user since its counter was last taken. */
    ghost var metered: Counters

    ghost predicate Valid()
      reads this
    {
      forall u: Name :: Get(users, u) == Wrap64(Get(metered, u))
    }

    constructor ()
      ensures Valid() && users == map[] && metered == map[]
    {
      users := map[];
      metered := map[];
    }

    /** The step `Adds`: the total returned is all that was added for the user since its counter was last taken,
        wrapped to 64 bits once. */
    method AddTraffic(user: Name, traffic: int) returns (total: int)
      requires Valid()
      modifies this
      ensures Valid() && metered == Add(old(metered), user, traffic)
      ensures total == Wrap64(Get(metered, user))
      ensures Metering(users).pending == Apply(Metering(old(users)), Adds(user, traffic)).pending
    {
      ghost var before := Get(metered, user);
      assert Get(users, user) == Wrap64(before);
      WrapAdds(before, before, traffic);
      users := users[user := Wrap64((if user in users then users[user] else 0) + traffic)];
      metered := Add(metered, user, traffic);
      total := users[user];
      assert total == Wrap64(before + traffic) && Get(metered, user) == before + traffic;
      assert forall u: Name :: u != user ==>
        Get(users, u) == old(Get(users, u)) && Get(metered, u) == old(Get(metered, u));
    }

    /** Takes one user's counter and no other. */
    method GetAndDelete(user: Name) returns (traffic: int)
      requires Valid()
      modifies this
      ensures Valid() && metered == old(metered) - {user}
      ensures traffic == Wrap64(Get(old(metered), user)) && Get(users, user) == 0
    {
      traffic := if user in users then users[user] else 0;
      assert traffic == Get(users, user) == Wrap64(Get(metered, user));
      users := users - {user};
      metered := metered - {user};
      assert Get(users, user) == 0 == Wrap64(Get(metered, user));
      assert forall u: Name :: u != user ==>
        Get(users, u) == old(Get(users, u)) && Get(metered, u) == old(Get(metered, u));
    }

    /** The step `Snapshots`: copies the counters one by one, in any order, and starts again from none. */
    method SnapshotAndClear() returns (result: Counters)
      requires Valid()
      modifies this
      ensures Valid() && metered == map[]
      ensures forall u: Name :: Get(result, u) == Wrap64(Get(old(metered), u))
      ensures result == Apply(Metering(old(users)), Snapshots).taken
      ensures users == Apply(Metering(old(users)), Snapshots).pending
    {
      result := map[];
      var rest := users.Keys;
      while rest != {}
        invariant rest <= users.Keys && users == old(users) && metered == old(metered)
        invariant result.Keys == users.Keys - rest
        invariant forall u <- result :: result[u] == users[u]
        decreases |rest|
      {
        var user :| user in rest;
        result := result[user := users[user]];
        rest := rest - {user};
      }
      assert result == old(users);
      users := map[];
      metered := map[];
    }
  }

  class Records {
    var users: map<Name, Store.User>

    constructor ()
      ensures users == map[]
    {
      users := map[];
    }
  }

  function Saved(user: Store.User, traffic: int): Store.User {
    if traffic > 0 then user.(currentTraffic := Wrap64(user.currentTraffic + traffic)) else user
  }

  /** One tick of the timer with nobody else writing: every stored user's counter grows by all that was added for it
      since the tick before, if that is positive; no record appears or disappears, and the counters start again. */
  method Tick(counter: Counter, records: Records)
    requires counter.Valid()
    modifies counter, records
    ensures counter.Valid() && counter.metered == map[]
    ensures records.users.Keys == old(records.users).Keys
    ensures forall u <- records.users ::
              var (was, traffic) := (old(records.users)[u], Wrap64(Get(old(counter.metered), u)));
              records.users[u] ==
              was.(currentTraffic := if traffic > 0 then Wrap64(was.currentTraffic + traffic) else was.currentTraffic)
  {
    var traffic := counter.SnapshotAndClear();
    var rest := traffic.Keys;
    while rest != {}
      invariant rest <= traffic.Keys && counter.Valid() && counter.metered == map[]
      invariant records.users.Keys == old(records.users).Keys
      invariant forall u <- records.users ::
                  records.users[u] ==
                  if u in rest then old(records.users)[u] else Saved(old(records.users)[u], Get(traffic, u))
      decreases |rest|
    {
      var name :| name in rest;
      if traffic[name] > 0 && name in records.users {
        var user := records.users[name];
        user := user.(currentTraffic := Wrap64(user.currentTraffic + traffic[name]));
        records.users := records.users[name := user];
      }
      rest := rest - {name};
    }
  }
}
