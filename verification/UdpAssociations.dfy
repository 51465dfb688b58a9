/** UDP associations: each user has one UDP server, created for the first association and closed when the last one
    leaves. Associations of one user run side by side, so every access to shared state is a step of its own. */
module UdpAssociations {
  import opened Prelude

  type User = string

  type Ip = string

  // ---------------------------------------------------------------- counters

  function CountOf<K>(counts: map<K, int>, key: K): int { if key in counts then counts[key] else 0 }

  function Incr<K>(counts: map<K, int>, key: K): map<K, int> { counts[key := CountOf(counts, key) + 1] }

  /** A key whose count falls to zero, or that was never counted, is removed. */
  function Decr<K>(counts: map<K, int>, key: K): map<K, int> {
    if CountOf(counts, key) > 1 then counts[key := CountOf(counts, key) - 1] else counts - {key}
  }

  // ---------------------------------------------------------------- servers

  datatype Socket = Socket(user: User, port: int)

  /** The registered server of each user, and every socket that is open, by server id. */
  datatype Servers = Servers(registered: map<User, nat>, open: map<nat, Socket>)

  function Stop(s: Servers, user: User): Servers {
    if user in s.registered then Servers(s.registered - {user}, s.open - {s.registered[user]}) else s
  }

  predicate LowestFree(lo: int, hi: int, taken: set<int>, port: Option<int>) {
    match port
    case None => forall p :: lo <= p <= hi ==> p in taken
    case Some(n) => lo <= n <= hi && n !in taken && forall p :: lo <= p < n ==> p in taken
  }

  function TakenPorts(open: map<nat, Socket>): set<int> { set s | s in open :: open[s].port }

  // ---------------------------------------------------------------- associations

  /** Where an association stands: its address counted; its user counted; no server found; a server created and not
      yet registered; using a server; given up; its user counted off again. */
  datatype Phase =
    | Arriving
    | Counted
    | Missing
    | Created(created: nat)
    | Using(server: nat)
    | Failed
    | Leaving

  datatype Assoc = Assoc(user: User, ip: Ip, phase: Phase)

  type Assocs = map<nat, Assoc>

  datatype State = State(assocs: Assocs, ips: map<(User, Ip), int>, counts: map<User, int>, servers: Servers)

  const INITIAL := State(map[], map[], map[], Servers(map[], map[]))

  datatype Event =
    | Arrive(a: nat, user: User, ip: Ip)
    | CountUp(a: nat)
    | Load(a: nat)
    | Create(a: nat, id: nat, port: Option<int>, lo: int, hi: int, taken: set<int>)
    | Store(a: nat)
    | GiveUp(a: nat)
    | Leave(a: nat)
    | Gone(a: nat)

  /** Ids of associations and servers are fresh; a new server listens on the lowest port that is free. */
  predicate Enabled(st: State, e: Event) {
    if e.Arrive? then e.a !in st.assocs
    else
      && e.a in st.assocs
      && var phase := st.assocs[e.a].phase;
      match e
      case Arrive(_, _, _) => false
      case CountUp(_) => phase.Arriving?
      case Load(_) => phase.Counted?
      case Create(_, id, port, lo, hi, taken) =>
        && phase.Missing?
        && id !in st.servers.open && (forall a <- st.assocs :: st.assocs[a].phase != Using(id))
        && (forall u <- st.servers.registered :: st.servers.registered[u] != id)
        && TakenPorts(st.servers.open) <= taken && LowestFree(lo, hi, taken, port)
      case Store(_) => phase.Created?
      case GiveUp(_) => phase.Using?
      case Leave(_) => phase.Failed?
      case Gone(_) => phase.Leaving?
  }

  function To(st: State, a: nat, phase: Phase): Assocs
    requires a in st.assocs
  {
    st.assocs[a := st.assocs[a].(phase := phase)]
  }

  function Apply(st: State, e: Event): State
    requires Enabled(st, e)
  {
    match e
    case Arrive(a, user, ip) =>
      st.(assocs := st.assocs[a := Assoc(user, ip, Arriving)], ips := Incr(st.ips, (user, ip)))
    case CountUp(a) => st.(assocs := To(st, a, Counted), counts := Incr(st.counts, st.assocs[a].user))
    case Load(a) =>
      var user := st.assocs[a].user;
      if user in st.servers.registered then st.(assocs := To(st, a, Using(st.servers.registered[user])))
      else st.(assocs := To(st, a, Missing))
    case Create(a, id, port, _, _, _) =>
      if port.None? then st.(assocs := To(st, a, Failed))
      else
        st.(assocs := To(st, a, Created(id)),
        servers := st.servers.(open := st.servers.open[id := Socket(st.assocs[a].user, port.value)]))
    case Store(a) =>
      var id := st.assocs[a].phase.created;
      st.(assocs := To(st, a, Using(id)),
      servers := st.servers.(registered := st.servers.registered[st.assocs[a].user := id]))
    case GiveUp(a) => st.(assocs := To(st, a, Failed))
    case Leave(a) =>
      var user := st.assocs[a].user;
      State(To(st, a, Leaving), st.ips, Decr(st.counts, user),
            if CountOf(st.counts, user) > 1 then st.servers else Stop(st.servers, user))
    case Gone(a) =>
      st.(assocs := st.assocs - {a}, ips := Decr(st.ips, (st.assocs[a].user, st.assocs[a].ip)))
  }

  ghost predicate Run(trace: seq<State>, es: seq<Event>) {
    && |trace| == |es| + 1 && trace[0] == INITIAL
    && forall i :: 0 <= i < |es| ==> Enabled(trace[i], es[i]) && trace[i + 1] == Apply(trace[i], es[i])
  }

  // ---------------------------------------------------------------- a count is the number of its members

  function Members<K(==)>(group: map<nat, K>, key: K): set<nat> { set a | a in group && group[a] == key }

  /** The count of every key is the number of members it has, and a count that is stored is positive. */
  ghost predicate Agree<K(!new)>(group: map<nat, K>, counts: map<K, int>) {
    && (forall k: K :: CountOf(counts, k) == |Members(group, k)|)
    && (forall k <- counts :: counts[k] > 0)
  }

  lemma JoinKeeps<K(!new)>(group: map<nat, K>, a: nat, key: K, counts: map<K, int>)
    requires a !in group && Agree(group, counts)
    ensures Agree(group[a := key], Incr(counts, key))
  {
    forall k ensures CountOf(Incr(counts, key), k) == |Members(group[a := key], k)| {
      if k == key {
        assert Members(group[a := key], k) == Members(group, k) + {a};
      } else {
        assert Members(group[a := key], k) == Members(group, k);
      }
    }
  }

  lemma PartKeeps<K(!new)>(group: map<nat, K>, a: nat, counts: map<K, int>)
    requires a in group && Agree(group, counts)
    ensures Agree(group - {a}, Decr(counts, group[a]))
  {
    forall k ensures CountOf(Decr(counts, group[a]), k) == |Members(group - {a}, k)| {
      if k == group[a] {
        assert a in Members(group, k);
        assert Members(group - {a}, k) == Members(group, k) - {a};
      } else {
        assert Members(group - {a}, k) == Members(group, k);
      }
    }
  }

  lemma OnlyMember<K(!new)>(group: map<nat, K>, a: nat, b: nat, counts: map<K, int>)
    requires Agree(group, counts) && a in group && b in group && group[a] == group[b]
    requires CountOf(counts, group[a]) <= 1
    ensures a == b
  {
    var members := Members(group, group[a]);
    assert |members - {a}| == |members| - 1;
    assert b == a || b in members - {a};
  }

  // ---------------------------------------------------------------- counts are live associations

  /** Has the association counted its user, and not counted it off? */
  predicate Holds(phase: Phase) { !phase.Arriving? && !phase.Leaving? }

  function Live(assocs: Assocs): map<nat, User> { map a | a in assocs && Holds(assocs[a].phase) :: assocs[a].user }

  function Sources(assocs: Assocs): map<nat, (User, Ip)> { map a | a in assocs :: (assocs[a].user, assocs[a].ip) }

  lemma PhaseMoved(assocs: Assocs, a: nat, phase: Phase)
    requires a in assocs
    ensures var next := assocs[a := assocs[a].(phase := phase)];
            && Sources(next) == Sources(assocs)
            && Live(next) == if Holds(phase) then Live(assocs)[a := assocs[a].user] else Live(assocs) - {a}
    ensures Holds(assocs[a].phase) ==> Live(assocs)[a := assocs[a].user] == Live(assocs)
    ensures !Holds(assocs[a].phase) ==> Live(assocs) - {a} == Live(assocs)
  {
  }

  lemma LiveMoved(st: State, e: Event)
    requires Enabled(st, e)
    ensures Live(Apply(st, e).assocs) ==
            if e.CountUp? then Live(st.assocs)[e.a := st.assocs[e.a].user]
            else if e.Leave? then Live(st.assocs) - {e.a}
            else Live(st.assocs)
  {
    if !e.Arrive? && !e.Gone? {
      PhaseMoved(st.assocs, e.a, Apply(st, e).assocs[e.a].phase);
    }
  }

  lemma SourcesMoved(st: State, e: Event)
    requires Enabled(st, e)
    ensures Sources(Apply(st, e).assocs) ==
            if e.Arrive? then Sources(st.assocs)[e.a := (e.user, e.ip)]
            else if e.Gone? then Sources(st.assocs) - {e.a}
            else Sources(st.assocs)
  {
    if !e.Arrive? && !e.Gone? {
      PhaseMoved(st.assocs, e.a, Apply(st, e).assocs[e.a].phase);
    }
  }

  lemma CountsKept(st: State, e: Event)
    requires Enabled(st, e) && Agree(Live(st.assocs), st.counts)
    ensures Agree(Live(Apply(st, e).assocs), Apply(st, e).counts)
  {
    LiveMoved(st, e);
    if e.CountUp? {
      JoinKeeps(Live(st.assocs), e.a, st.assocs[e.a].user, st.counts);
    } else if e.Leave? {
      PartKeeps(Live(st.assocs), e.a, st.counts);
    }
  }

  lemma SourcesKept(st: State, e: Event)
    requires Enabled(st, e) && Agree(Sources(st.assocs), st.ips)
    ensures Agree(Sources(Apply(st, e).assocs), Apply(st, e).ips)
  {
    SourcesMoved(st, e);
    if e.Arrive? {
      JoinKeeps(Sources(st.assocs), e.a, (e.user, e.ip), st.ips);
    } else if e.Gone? {
      PartKeeps(Sources(st.assocs), e.a, st.ips);
    }
  }

  // ---------------------------------------------------------------- servers belong to live associations

  /** A registered server is open, serves its user, and that user's count is positive. */
  ghost predicate RegisteredOk(counts: map<User, int>, s: Servers) {
    forall u <- s.registered ::
      s.registered[u] in s.open && s.open[s.registered[u]].user == u && CountOf(counts, u) > 0
  }

  function ServerOf(phase: Phase): Option<nat> {
    match phase
    case Created(id) => Some(id)
    case Using(id) => Some(id)
    case _ => None
  }

  /** The server that an association created or uses is open and serves its user. */
  ghost predicate InUseOk(assocs: Assocs, s: Servers) {
    forall a <- assocs :: ServerOf(assocs[a].phase).Some? ==>
      (ServerOf(assocs[a].phase).value in s.open && s.open[ServerOf(assocs[a].phase).value].user == assocs[a].user)
  }

  /** A server that was created and not registered yet is not registered under another user, and has one creator. */
  ghost predicate CreatedOk(assocs: Assocs, s: Servers) {
    forall a <- assocs :: assocs[a].phase.Created? ==>
      && (forall u <- s.registered :: s.registered[u] != assocs[a].phase.created)
      && (forall b <- assocs :: assocs[b].phase == assocs[a].phase ==> a == b)
  }

  ghost predicate PortsOk(open: map<nat, Socket>) {
    forall s <- open, t <- open :: open[s].port == open[t].port ==> s == t
  }

  ghost predicate Inv(st: State) {
    && Agree(Live(st.assocs), st.counts)
    && Agree(Sources(st.assocs), st.ips)
    && RegisteredOk(st.counts, st.servers)
    && InUseOk(st.assocs, st.servers)
    && CreatedOk(st.assocs, st.servers)
    && PortsOk(st.servers.open)
  }

  /** The last association to leave is the only one that could be using its user's server. */
  lemma LastOut(st: State, a: nat, b: nat)
    requires Agree(Live(st.assocs), st.counts) && a in st.assocs && b in st.assocs
    requires Holds(st.assocs[a].phase) && Holds(st.assocs[b].phase) && st.assocs[a].user == st.assocs[b].user
    requires CountOf(st.counts, st.assocs[a].user) <= 1
    ensures a == b
  {
    OnlyMember(Live(st.assocs), a, b, st.counts);
  }

  lemma CountHeld(st: State, a: nat)
    requires Agree(Live(st.assocs), st.counts) && a in st.assocs && Holds(st.assocs[a].phase)
    ensures CountOf(st.counts, st.assocs[a].user) > 0
  {
    assert a in Members(Live(st.assocs), st.assocs[a].user);
  }

  lemma RegisteredKept(st: State, e: Event)
    requires Enabled(st, e) && Agree(Live(st.assocs), st.counts)
    requires RegisteredOk(st.counts, st.servers) && InUseOk(st.assocs, st.servers)
    ensures RegisteredOk(Apply(st, e).counts, Apply(st, e).servers)
  {
    if e.Store? {
      CountHeld(st, e.a);
    }
  }

  lemma LeaveSparesInUse(st: State, e: Event)
    requires Enabled(st, e) && e.Leave? && Agree(Live(st.assocs), st.counts)
    requires RegisteredOk(st.counts, st.servers) && InUseOk(st.assocs, st.servers)
    ensures InUseOk(Apply(st, e).assocs, Apply(st, e).servers)
  {
    if CountOf(st.counts, st.assocs[e.a].user) <= 1 {
      forall b | b in st.assocs && Holds(st.assocs[b].phase) && st.assocs[b].user == st.assocs[e.a].user
        ensures b == e.a
      {
        LastOut(st, e.a, b);
      }
    }
  }

  lemma InUseKept(st: State, e: Event)
    requires Enabled(st, e) && Agree(Live(st.assocs), st.counts)
    requires RegisteredOk(st.counts, st.servers) && InUseOk(st.assocs, st.servers)
    ensures InUseOk(Apply(st, e).assocs, Apply(st, e).servers)
  {
    if e.Leave? {
      LeaveSparesInUse(st, e);
    }
  }

  lemma StoreKeepsCreated(st: State, e: Event)
    requires Enabled(st, e) && e.Store? && CreatedOk(st.assocs, st.servers)
    ensures CreatedOk(Apply(st, e).assocs, Apply(st, e).servers)
  {
  }

  lemma CreateKeepsCreated(st: State, e: Event)
    requires Enabled(st, e) && e.Create? && CreatedOk(st.assocs, st.servers) && InUseOk(st.assocs, st.servers)
    ensures CreatedOk(Apply(st, e).assocs, Apply(st, e).servers)
  {
  }

  lemma CreatedKept(st: State, e: Event)
    requires Enabled(st, e) && CreatedOk(st.assocs, st.servers) && InUseOk(st.assocs, st.servers)
    ensures CreatedOk(Apply(st, e).assocs, Apply(st, e).servers)
  {
    if e.Store? {
      StoreKeepsCreated(st, e);
    } else if e.Create? {
      CreateKeepsCreated(st, e);
    }
  }

  lemma PortsKept(st: State, e: Event)
    requires Enabled(st, e) && PortsOk(st.servers.open)
    ensures PortsOk(Apply(st, e).servers.open)
  {
  }

  lemma StepKeepsInv(st: State, e: Event)
    requires Enabled(st, e) && Inv(st)
    ensures Inv(Apply(st, e))
  {
    CountsKept(st, e);
    SourcesKept(st, e);
    RegisteredKept(st, e);
    InUseKept(st, e);
    CreatedKept(st, e);
    PortsKept(st, e);
  }

  lemma {:induction false} RunKeepsInv(trace: seq<State>, es: seq<Event>, n: nat)
    requires Run(trace, es) && n <= |es|
    ensures Inv(trace[n])
  {
    if n > 0 {
      RunKeepsInv(trace, es, n - 1);
      StepKeepsInv(trace[n - 1], es[n - 1]);
    }
  }

  // ---------------------------------------------------------------- theorems

  /** In every run a user's count is the number of its live associations and is never stored as zero or less. */
  lemma CountsExactly(trace: seq<State>, es: seq<Event>, n: nat, user: User)
    requires Run(trace, es) && n <= |es|
    ensures CountOf(trace[n].counts, user) ==
            |set a | a in trace[n].assocs && Holds(trace[n].assocs[a].phase) && trace[n].assocs[a].user == user|
    ensures user in trace[n].counts ==> trace[n].counts[user] > 0
  {
    RunKeepsInv(trace, es, n);
    var st := trace[n];
    assert Members(Live(st.assocs), user) ==
           set a | a in st.assocs && Holds(st.assocs[a].phase) && st.assocs[a].user == user;
  }

  /** In every run the server of a live association is open, and so is a registered one; only a user with a positive
      count has a registered server; and no two open servers share a port. */
  lemma ServersStayOpen(trace: seq<State>, es: seq<Event>, n: nat)
    requires Run(trace, es) && n <= |es|
    ensures forall a <- trace[n].assocs :: trace[n].assocs[a].phase.Using? ==>
              (trace[n].assocs[a].phase.server in trace[n].servers.open &&
               trace[n].servers.open[trace[n].assocs[a].phase.server].user == trace[n].assocs[a].user)
    ensures forall u <- trace[n].servers.registered ::
              trace[n].servers.registered[u] in trace[n].servers.open && CountOf(trace[n].counts, u) > 0
    ensures forall s <- trace[n].servers.open, t <- trace[n].servers.open ::
              trace[n].servers.open[s].port == trace[n].servers.open[t].port ==> s == t
  {
    RunKeepsInv(trace, es, n);
    var assocs := trace[n].assocs;
    assert forall a <- assocs :: assocs[a].phase.Using? ==> ServerOf(assocs[a].phase) == Some(assocs[a].phase.server);
  }

  /** A datagram is let through exactly when its sender's user has an association from that address. */
  lemma GateIsExact(trace: seq<State>, es: seq<Event>, n: nat, user: User, ip: Ip)
    requires Run(trace, es) && n <= |es|
    ensures CountOf(trace[n].ips, (user, ip)) > 0 <==>
            exists a :: a in trace[n].assocs && trace[n].assocs[a].user == user && trace[n].assocs[a].ip == ip
  {
    RunKeepsInv(trace, es, n);
    var members := Members(Sources(trace[n].assocs), (user, ip));
    if |members| > 0 {
      var a :| a in members;
      assert a in trace[n].assocs;
    } else {
      forall a | a in trace[n].assocs ensures !(trace[n].assocs[a].user == user && trace[n].assocs[a].ip == ip) {
        assert a !in members;
      }
    }
  }

  // ---------------------------------------------------------------- servers that nobody will close

  predicate HasCreator(assocs: Assocs, id: nat) { exists a :: a in assocs && assocs[a].phase == Created(id) }

  predicate IsRegistered(s: Servers, id: nat)
    requires id in s.open
  {
    s.open[id].user in s.registered && s.registered[s.open[id].user] == id
  }

  /** Open servers that are not registered, and that nobody is about to register. */
  function Stray(st: State): set<nat> {
    set s | s in st.servers.open && !IsRegistered(st.servers, s) && !HasCreator(st.assocs, s)
  }

  /** The step registers a server over one that is registered already. */
  predicate Overwrites(st: State, e: Event) {
    e.Store? && e.a in st.assocs && st.assocs[e.a].user in st.servers.registered
  }

  lemma CreatorMoved(st: State, e: Event, s: nat)
    requires Enabled(st, e) && CreatedOk(st.assocs, st.servers)
    ensures HasCreator(Apply(st, e).assocs, s) <==>
            if e.Create? && e.port.Some? && s == e.id then true
            else if e.Store? && s == st.assocs[e.a].phase.created then false
            else HasCreator(st.assocs, s)
  {
    var next := Apply(st, e);
    if HasCreator(st.assocs, s) {
      var a :| a in st.assocs && st.assocs[a].phase == Created(s);
      if !e.Store? || a != e.a { assert a in next.assocs && next.assocs[a].phase == Created(s); }
    }
    if e.Create? && e.port.Some? { assert next.assocs[e.a].phase == Created(e.id); }
  }

  /** The registered server that the step registers another one over. */
  function Displaced(st: State, e: Event): set<nat> {
    if Overwrites(st, e) then {st.servers.registered[st.assocs[e.a].user]} else {}
  }

  lemma StrayMoved(st: State, e: Event, s: nat)
    requires Enabled(st, e)
    requires RegisteredOk(st.counts, st.servers) && InUseOk(st.assocs, st.servers) && CreatedOk(st.assocs, st.servers)
    ensures s in Stray(Apply(st, e)) <==> s in Stray(st) || s in Displaced(st, e)
  {
    CreatorMoved(st, e, s);
    if e.Store? {
      assert ServerOf(st.assocs[e.a].phase) == Some(st.assocs[e.a].phase.created);
    }
  }

  lemma DisplacedNotStray(st: State, e: Event)
    requires Enabled(st, e) && Inv(st)
    ensures Displaced(st, e) !! Stray(st)
  {
    if Overwrites(st, e) {
      assert IsRegistered(st.servers, st.servers.registered[st.assocs[e.a].user]);
    }
  }

  lemma StrayAdded(st: State, e: Event)
    requires Enabled(st, e) && Inv(st)
    ensures Stray(Apply(st, e)) == Stray(st) + Displaced(st, e) && Displaced(st, e) !! Stray(st)
  {
    var next := Apply(st, e);
    forall s ensures s in Stray(next) <==> s in Stray(st) || s in Displaced(st, e) {
      StrayMoved(st, e, s);
    }
    DisplacedNotStray(st, e);
  }

  /** How many of the first `n` steps registered a server over another one. */
  ghost function Overwritings(trace: seq<State>, es: seq<Event>, n: nat): nat
    requires n <= |es| && |trace| == |es| + 1
  {
    if n == 0 then 0
    else Overwritings(trace, es, n - 1) + if Overwrites(trace[n - 1], es[n - 1]) then 1 else 0
  }

  /** A stray server is left behind by every registration over another one, and by nothing else. */
  lemma {:induction false} StraysCounted(trace: seq<State>, es: seq<Event>, n: nat)
    requires Run(trace, es) && n <= |es|
    ensures |Stray(trace[n])| == Overwritings(trace, es, n)
  {
    if n > 0 {
      StraysCounted(trace, es, n - 1);
      RunKeepsInv(trace, es, n - 1);
      var st, e := trace[n - 1], es[n - 1];
      StrayAdded(st, e);
    }
  }

  /** Once every association is gone, the servers still open are as many as the registrations that found one in place:
      none is left open exactly when no registration did. */
  lemma OpenAtRest(trace: seq<State>, es: seq<Event>, n: nat)
    requires Run(trace, es) && n <= |es| && trace[n].assocs == map[]
    ensures |trace[n].servers.open| == Overwritings(trace, es, n)
    ensures trace[n].servers.open == map[] <==> forall i :: 0 <= i < n ==> !Overwrites(trace[i], es[i])
  {
    RunKeepsInv(trace, es, n);
    StraysCounted(trace, es, n);
    var st := trace[n];
    assert forall u :: Members(Live(st.assocs), u) == {};
    assert Stray(st) == st.servers.open.Keys;
    NoOverwritings(trace, es, n);
    assert |st.servers.open| == |st.servers.open.Keys|;
  }

  lemma {:induction false} NoOverwritings(trace: seq<State>, es: seq<Event>, n: nat)
    requires n <= |es| && |trace| == |es| + 1
    ensures Overwritings(trace, es, n) == 0 <==> forall i :: 0 <= i < n ==> !Overwrites(trace[i], es[i])
  {
    if n > 0 {
      NoOverwritings(trace, es, n - 1);
    }
  }

  /** The association found no server, and has not registered one yet. */
  predicate Creating(phase: Phase) { phase.Missing? || phase.Created? }

  /** No two associations of one user are creating a server. */
  predicate CreationsApart(assocs: Assocs) {
    forall a <- assocs, b <- assocs ::
      (Creating(assocs[a].phase) && Creating(assocs[b].phase) && assocs[a].user == assocs[b].user) ==> a == b
  }

  predicate CreatorsUnregistered(st: State) {
    forall a <- st.assocs :: Creating(st.assocs[a].phase) ==> st.assocs[a].user !in st.servers.registered
  }

  lemma ApartKeepsUnregistered(st: State, e: Event)
    requires Enabled(st, e) && CreationsApart(st.assocs) && CreatorsUnregistered(st)
    ensures CreatorsUnregistered(Apply(st, e)) && !Overwrites(st, e)
  {
  }

  lemma {:induction false} ApartRun(trace: seq<State>, es: seq<Event>, n: nat)
    requires Run(trace, es) && n <= |es|
    requires forall i :: 0 <= i <= n ==> CreationsApart(trace[i].assocs)
    ensures CreatorsUnregistered(trace[n]) && Overwritings(trace, es, n) == 0
  {
    if n > 0 {
      ApartRun(trace, es, n - 1);
      ApartKeepsUnregistered(trace[n - 1], es[n - 1]);
    }
  }

  /** While the creations of one user never overlap, each user has at most one open server, and none when its count is
      zero. */
  lemma OneServerPerUser(trace: seq<State>, es: seq<Event>, n: nat, s: nat, t: nat)
    requires Run(trace, es) && n <= |es|
    requires forall i :: 0 <= i <= n ==> CreationsApart(trace[i].assocs)
    requires s in trace[n].servers.open && t in trace[n].servers.open
    requires trace[n].servers.open[s].user == trace[n].servers.open[t].user
    ensures s == t && CountOf(trace[n].counts, trace[n].servers.open[s].user) > 0
  {
    RunKeepsInv(trace, es, n);
    ApartRun(trace, es, n);
    StraysCounted(trace, es, n);
    HasOwner(trace[n], s);
    HasOwner(trace[n], t);
  }

  /** A server that is not stray is registered, or one live association of its user created it. */
  lemma HasOwner(st: State, s: nat)
    requires Inv(st) && Stray(st) == {} && s in st.servers.open
    ensures IsRegistered(st.servers, s) ||
            exists a :: a in st.assocs && st.assocs[a].phase == Created(s) &&
                        st.assocs[a].user == st.servers.open[s].user
    ensures CountOf(st.counts, st.servers.open[s].user) > 0
  {
    assert s !in Stray(st);
    if !IsRegistered(st.servers, s) {
      var a :| a in st.assocs && st.assocs[a].phase == Created(s);
      assert ServerOf(st.assocs[a].phase) == Some(s);
      CountHeld(st, a);
    }
  }

  // ---------------------------------------------------------------- a failed listen

  lemma OthersStay(st: State, e: Event, a: nat)
    requires Enabled(st, e) && e.a != a && a in st.assocs
    ensures a in Apply(st, e).assocs && Apply(st, e).assocs[a] == st.assocs[a]
  {
  }

  lemma {:induction false} FailedStays(trace: seq<State>, es: seq<Event>, i: nat, n: nat)
    requires Run(trace, es) && i < n <= |es| && es[i].Create? && es[i].port.None?
    requires forall k :: i < k < n ==> es[k].a != es[i].a
    ensures es[i].a in trace[n].assocs && trace[n].assocs[es[i].a].phase == Failed
    decreases n
  {
    if i + 1 < n {
      FailedStays(trace, es, i, n - 1);
      OthersStay(trace[n - 1], es[n - 1], es[i].a);
    }
  }

  /** An association whose listen failed can do nothing but leave, and that at any time; then nothing but go, and then
      it is not there any more. */
  lemma FailedListenEnds(trace: seq<State>, es: seq<Event>, i: nat, n: nat, e: Event)
    requires Run(trace, es) && i < n <= |es| && es[i].Create? && es[i].port.None? && e.a == es[i].a
    requires forall k :: i < k < n ==> es[k].a != es[i].a
    ensures Enabled(trace[n], e) <==> e == Leave(es[i].a)
    ensures e.Leave? ==> Enabled(Apply(trace[n], e), Gone(e.a)) && e.a !in Apply(Apply(trace[n], e), Gone(e.a)).assocs
  {
    FailedStays(trace, es, i, n);
  }

  predicate Moves(st: State, e: Event, next: State) { Enabled(st, e) && next == Apply(st, e) }

  lemma UpAndDown<K>(counts: map<K, int>, key: K)
    requires key in counts ==> counts[key] > 0
    ensures Decr(Incr(counts, key), key) == counts
  {
  }

  /** On its own, from arrival to the end, it leaves everything as it was: both counts, and the servers of all. */
  lemma FailedListenUndone(t: seq<State>, a: nat, user: User, ip: Ip, listen: Event)
    requires |t| == 7 && listen.Create? && listen.a == a && listen.port.None?
    requires user in t[0].counts ==> t[0].counts[user] > 0
    requires (user, ip) in t[0].ips ==> t[0].ips[(user, ip)] > 0
    requires Moves(t[0], Arrive(a, user, ip), t[1]) && Moves(t[1], CountUp(a), t[2]) && Moves(t[2], Load(a), t[3])
    requires Moves(t[3], listen, t[4]) && Moves(t[4], Leave(a), t[5]) && Moves(t[5], Gone(a), t[6])
    ensures t[6] == t[0]
  {
    UpAndDown(t[0].counts, user);
    UpAndDown(t[0].ips, (user, ip));
    assert t[6].servers == t[0].servers;
    assert t[6].assocs == t[0].assocs;
  }

  function Pair(p: Phase, q: Phase): Assocs { map[0 := Assoc("u", "i", p), 1 := Assoc("u", "i", q)] }

  function Both(p: Phase, q: Phase, s: Servers): State { State(Pair(p, q), map[("u", "i") := 2], map["u" := 2], s) }

  lemma Extend(trace: seq<State>, es: seq<Event>, e: Event, next: State) returns (trace': seq<State>, es': seq<Event>)
    requires Run(trace, es) && Enabled(trace[|es|], e) && Apply(trace[|es|], e) == next
    ensures Run(trace', es') && trace'[|es'|] == next
  {
    trace', es' := trace + [next], es + [e];
  }

  lemma BothCount() returns (trace: seq<State>, es: seq<Event>)
    ensures Run(trace, es) && trace[|es|] == Both(Counted, Counted, Servers(map[], map[]))
  {
    trace, es := [INITIAL], [];
    var none := Servers(map[], map[]);
    trace, es := Extend(trace, es, Arrive(0, "u", "i"),
      State(map[0 := Assoc("u", "i", Arriving)], map[("u", "i") := 1], map[], none));
    trace, es := Extend(trace, es, Arrive(1, "u", "i"),
      State(Pair(Arriving, Arriving), map[("u", "i") := 2], map[], none));
    trace, es := Extend(trace, es, CountUp(0),
      State(Pair(Counted, Arriving), map[("u", "i") := 2], map["u" := 1], none));
    trace, es := Extend(trace, es, CountUp(1), Apply(trace[|es|], CountUp(1)));
  }

  lemma BothLoad() returns (trace: seq<State>, es: seq<Event>)
    ensures Run(trace, es) && trace[|es|] == Both(Missing, Missing, Servers(map[], map[]))
  {
    trace, es := BothCount();
    trace, es := Extend(trace, es, Load(0), Both(Missing, Counted, Servers(map[], map[])));
    trace, es := Extend(trace, es, Load(1), Apply(trace[|es|], Load(1)));
  }

  lemma BothCreate() returns (trace: seq<State>, es: seq<Event>)
    ensures Run(trace, es)
    ensures trace[|es|] ==
            Both(Created(1), Created(2), Servers(map[], map[1 := Socket("u", 7000), 2 := Socket("u", 7001)]))
  {
    trace, es := BothLoad();
    var first, second := Create(0, 1, Some(7000), 7000, 7009, {}), Create(1, 2, Some(7001), 7000, 7009, {7000});
    trace, es := Extend(trace, es, first, Both(Created(1), Missing, Servers(map[], map[1 := Socket("u", 7000)])));
    assert TakenPorts(trace[|es|].servers.open) == {7000};
    trace, es := Extend(trace, es, second, Apply(trace[|es|], second));
  }

  lemma BothStore() returns (trace: seq<State>, es: seq<Event>)
    ensures Run(trace, es)
    ensures trace[|es|] ==
            Both(Using(1), Using(2), Servers(map["u" := 2], map[1 := Socket("u", 7000), 2 := Socket("u", 7001)]))
  {
    trace, es := BothCreate();
    trace, es := Extend(trace, es, Store(0),
      Both(Using(1), Created(2), Servers(map["u" := 1], trace[|es|].servers.open)));
    trace, es := Extend(trace, es, Store(1), Apply(trace[|es|], Store(1)));
  }

  lemma BothGiveUp() returns (trace: seq<State>, es: seq<Event>)
    ensures Run(trace, es)
    ensures trace[|es|] ==
            Both(Failed, Failed, Servers(map["u" := 2], map[1 := Socket("u", 7000), 2 := Socket("u", 7001)]))
  {
    trace, es := BothStore();
    trace, es := Extend(trace, es, GiveUp(0), Both(Failed, Using(2), trace[|es|].servers));
    trace, es := Extend(trace, es, GiveUp(1), Apply(trace[|es|], GiveUp(1)));
  }

  /** Two associations of one user that both find no server leave one open, with no count and no registration. */
  lemma OverlapLeaksServer() returns (trace: seq<State>, es: seq<Event>)
    ensures Run(trace, es)
    ensures trace[|es|].counts == map[] && trace[|es|].servers == Servers(map[], map[1 := Socket("u", 7000)])
  {
    trace, es := BothGiveUp();
    trace, es := Extend(trace, es, Leave(0),
      State(Pair(Leaving, Failed), map[("u", "i") := 2], map["u" := 1], trace[|es|].servers));
    trace, es := Extend(trace, es, Leave(1), Apply(trace[|es|], Leave(1)));
  }
}
