/** The counters and server table of UDP associations, as the objects that the server updates under their locks. */
module UdpServers {
  import opened Prelude
  import opened UdpAssociations

  /** Tries the ports of the range in order, and takes the first one that is free. */
  method Listen(startPort: int, endPort: int, taken: set<int>) returns (port: Option<int>)
    ensures LowestFree(startPort, endPort, taken, port)
  {
    var p := startPort;
    while p <= endPort
      invariant forall q :: startPort <= q < p ==> q in taken
      invariant p <= endPort + 1 || p == startPort
      decreases endPort - p
    {
      if p !in taken {
        return Some(p);
      }
      p := p + 1;
    }
    port := None;
  }

  class UserIPCount {
    var userIP: map<(User, Ip), int>

    constructor ()
      ensures userIP == map[]
    {
      userIP := map[];
    }

    method Increment(key: (User, Ip)) returns (n: int)
      modifies this
      ensures userIP == Incr(old(userIP), key) && n == userIP[key]
    {
      userIP := userIP[key := (if key in userIP then userIP[key] else 0) + 1];
      n := userIP[key];
    }

    method Decrement(key: (User, Ip)) returns (n: int)
      modifies this
      ensures userIP == Decr(old(userIP), key)
      ensures n == if key in old(userIP) then old(userIP)[key] - 1 else 0
    {
      n := if key in userIP then userIP[key] - 1 else 0;
      if n <= 0 {
        userIP := userIP - {key};
      } else {
        userIP := userIP[key := n];
      }
    }

    method Get(key: (User, Ip)) returns (n: int)
      ensures n == CountOf(userIP, key)
    {
      n := if key in userIP then userIP[key] else 0;
    }
  }

  class Socks5Server {
    var userUDPServers: map<User, nat>
    var open: map<nat, Socket>

    constructor ()
      ensures Table() == Servers(map[], map[])
    {
      userUDPServers, open := map[], map[];
    }

    function Table(): Servers
      reads this
    {
      Servers(userUDPServers, open)
    }
  }

  class UserUDPCount {
    var users: map<User, int>
    const server: Socks5Server

    constructor (server: Socks5Server)
      ensures users == map[] && this.server == server
    {
      this.server := server;
      users := map[];
    }

    method Increment(user: User) returns (n: int)
      modifies this
      ensures users == Incr(old(users), user) && n == users[user]
    {
      users := users[user := (if user in users then users[user] else 0) + 1];
      n := users[user];
    }

    /** The last association of a user stops the user's server. */
    method Decrement(user: User) returns (n: int)
      modifies this, server
      ensures users == Decr(old(users), user) && n == CountOf(users, user)
      ensures server.Table() ==
              if CountOf(old(users), user) > 1 then old(server.Table()) else Stop(old(server.Table()), user)
    {
      var v := 0;
      if user in users {
        v := users[user] - 1;
      }
      if v > 0 {
        users := users[user := v];
        return v;
      }
      StopUserUDPServer(user);
      users := users - {user};
      n := 0;
    }

    method StopUserUDPServer(user: User)
      modifies server
      ensures server.Table() == Stop(old(server.Table()), user)
    {
      if user !in server.userUDPServers {
        return;
      }
      var id := server.userUDPServers[user];
      server.open := server.open - {id};
      server.userUDPServers := server.userUDPServers - {user};
    }
  }

  /** Finds the user's server, or opens and registers one. */
  method LoadOrCreate(server: Socks5Server, user: User, id: nat, lo: int, hi: int, taken: set<int>)
    returns (port: Option<int>)
    requires id !in server.open
    requires user in server.userUDPServers ==> server.userUDPServers[user] in server.open
    modifies server
    ensures user in old(server.userUDPServers) ==>
              server.Table() == old(server.Table()) && port == Some(server.open[server.userUDPServers[user]].port)
    ensures user !in old(server.userUDPServers) ==>
              && LowestFree(lo, hi, taken, port)
              && server.Table() == if port.None? then old(server.Table())
                                   else Servers(old(server.userUDPServers)[user := id],
                                                old(server.open)[id := Socket(user, port.value)])
  {
    if user in server.userUDPServers {
      return Some(server.open[server.userUDPServers[user]].port);
    }
    port := Listen(lo, hi, taken);
    if port.Some? {
      server.open := server.open[id := Socket(user, port.value)];
      server.userUDPServers := server.userUDPServers[user := id];
    }
  }

  /** One association on its own, start to end. `id` names the server it may create; `replied` says whether the reply to
      the client could be sent. It leaves both counts as they were. A user without other associations is left without a
      server; one with others keeps the server it had, or else the one opened here on the lowest free port. */
  method HandleSocks5Associate(ips: UserIPCount, udps: UserUDPCount, user: User, ip: Ip, id: nat, lo: int, hi: int,
                               taken: set<int>, replied: bool)
    returns (port: Option<int>)
    requires forall k <- ips.userIP :: ips.userIP[k] > 0
    requires forall u <- udps.users :: udps.users[u] > 0
    requires id !in udps.server.open
    requires user in udps.server.userUDPServers ==> udps.server.userUDPServers[user] in udps.server.open
    modifies ips, udps, udps.server
    ensures ips.userIP == old(ips.userIP) && udps.users == old(udps.users)
    ensures user !in udps.users ==> udps.server.Table() == Stop(old(udps.server.Table()), user)
    ensures user in udps.users && user in old(udps.server.userUDPServers) ==>
              udps.server.Table() == old(udps.server.Table())
    ensures user in udps.users && user !in old(udps.server.userUDPServers) ==>
              exists bound: Option<int> :: LowestFree(lo, hi, taken, bound) &&
                udps.server.Table() == if bound.None? then old(udps.server.Table())
                                       else Servers(old(udps.server.userUDPServers)[user := id],
                                                    old(udps.server.open)[id := Socket(user, bound.value)])
    ensures user in old(udps.server.userUDPServers) && replied ==>
              port == Some(old(udps.server.open[udps.server.userUDPServers[user]].port))
    ensures user !in old(udps.server.userUDPServers) && replied ==> LowestFree(lo, hi, taken, port)
    ensures !replied ==> port == None
  {
    var _ := ips.Increment((user, ip));
    var _ := udps.Increment(user);
    var bound := LoadOrCreate(udps.server, user, id, lo, hi, taken);
    port := if replied then bound else None;
    var _ := udps.Decrement(user);
    var _ := ips.Decrement((user, ip));
  }
}
