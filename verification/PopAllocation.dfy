/** Which pop (point of presence) a node is sent to: a directory from nodes to pops, a set of nodes per pop, and the
    allocation of pops with capacities. */
module PopAllocation {
  import opened Prelude

  type Node = string

  type PopId = string

  datatype Pop = Pop(id: PopId, area: string, maxCount: int)

  datatype Config = Config(pops: seq<Pop>, defaultArea: string)

  datatype Location = Location(country: string, province: string)

  /** The directory, and the members of each pop. */
  datatype Store = Store(dir: map<Node, PopId>, members: map<PopId, set<Node>>)

  const EMPTY := Store(map[], map[])

  function Of(s: Store, pop: PopId): set<Node> { if pop in s.members then s.members[pop] else {} }

  function SetNodePop(s: Store, node: Node, pop: PopId): Store {
    Store(s.dir[node := pop], s.members[pop := Of(s, pop) + {node}])
  }

  /** An unknown node is removed from the pop without a name. */
  function DeleteNode(s: Store, node: Node): Store {
    var pop := if node in s.dir then s.dir[node] else "";
    Store(s.dir - {node}, if pop in s.members then s.members[pop := Of(s, pop) - {node}] else s.members)
  }

  function First(pops: seq<Pop>, test: Pop -> bool): Option<Pop> {
    if pops == [] then None else if test(pops[0]) then Some(pops[0]) else First(pops[1..], test)
  }

  /** The first pop that passes the test, if one does. */
  lemma {:induction false} FirstIsFirst(pops: seq<Pop>, test: Pop -> bool)
    ensures First(pops, test).None? <==> forall p <- pops :: !test(p)
    ensures First(pops, test).Some? ==>
              exists k :: 0 <= k < |pops| && pops[k] == First(pops, test).value && test(pops[k]) &&
                          forall j :: 0 <= j < k ==> !test(pops[j])
  {
    if pops != [] {
      if test(pops[0]) {
      } else {
        FirstIsFirst(pops[1..], test);
        assert forall p <- pops :: p == pops[0] || p in pops[1..];
        assert forall p <- pops[1..] :: p in pops;
        if First(pops[1..], test).Some? {
          var k :| 0 <= k < |pops| - 1 && pops[1..][k] == First(pops[1..], test).value && test(pops[1..][k]) &&
                   forall j :: 0 <= j < k ==> !test(pops[1..][j]);
          assert forall j :: 0 < j < k + 1 ==> pops[j] == pops[1..][j - 1];
          assert pops[k + 1] == pops[1..][k];
        }
      }
    }
  }

  /** Hong Kong counts as an area of its own. */
  function AreaOf(where: Location): string { if where.province == "Hong Kong" then "HongKong" else where.country }

  predicate HasRoom(s: Store, pop: Pop) { |Of(s, pop.id)| < pop.maxCount }

  function Suitable(cfg: Config, s: Store, area: string): Option<Pop> {
    First(cfg.pops, (p: Pop) => p.area == area && HasRoom(s, p))
  }

  function Fallback(cfg: Config): Option<Pop> { First(cfg.pops, (p: Pop) => p.area == cfg.defaultArea) }

  /** A known node keeps its pop, which must still be configured. A new one gets the first pop of its area that has
      room, or else the first one of the default area. `where` is `None` when the location service fails. */
  function AllocatePop(cfg: Config, s: Store, node: Node, where: Option<Location>): (Store, Option<Pop>) {
    if node in s.dir then (s, First(cfg.pops, (p: Pop) => p.id == s.dir[node]))
    else if where.None? then (s, None)
    else
      var suitable := Suitable(cfg, s, AreaOf(where.value));
      var pop := if suitable.Some? then suitable else Fallback(cfg);
      if pop.Some? then (SetNodePop(s, node, pop.value.id), pop) else (s, None)
  }

  datatype Event = Asks(node: Node, where: Option<Location>) | Deletes(node: Node)

  function Step(cfg: Config, s: Store, e: Event): Store {
    match e
    case Asks(node, where) => AllocatePop(cfg, s, node, where).0
    case Deletes(node) => DeleteNode(s, node)
  }

  function Run(cfg: Config, s: Store, es: seq<Event>): Store {
    if es == [] then s else Step(cfg, Run(cfg, s, es[..|es| - 1]), es[|es| - 1])
  }

  // ---------------------------------------------------------------- directory and sets agree

  ghost predicate Agree(s: Store) {
    forall n: Node, p: PopId :: n in Of(s, p) <==> n in s.dir && s.dir[n] == p
  }

  lemma SetKeepsAgreement(s: Store, node: Node, pop: PopId)
    requires Agree(s) && node !in s.dir
    ensures forall p :: Of(SetNodePop(s, node, pop), p) == if p == pop then Of(s, p) + {node} else Of(s, p)
    ensures Agree(SetNodePop(s, node, pop))
  {
    var t := SetNodePop(s, node, pop);
    forall n: Node, p: PopId ensures n in Of(t, p) <==> n in t.dir && t.dir[n] == p {
      assert n in Of(s, p) <==> n in s.dir && s.dir[n] == p;
    }
  }

  lemma DeleteKeepsAgreement(s: Store, node: Node)
    requires Agree(s)
    ensures forall p :: Of(DeleteNode(s, node), p) == Of(s, p) - {node}
    ensures Agree(DeleteNode(s, node))
  {
    var t := DeleteNode(s, node);
    forall p ensures Of(t, p) == Of(s, p) - {node} {
      assert node in Of(s, p) <==> node in s.dir && s.dir[node] == p;
    }
    forall n: Node, p: PopId ensures n in Of(t, p) <==> n in t.dir && t.dir[n] == p {
      assert n in Of(s, p) <==> n in s.dir && s.dir[n] == p;
    }
  }

  predicate IdsDistinct(pops: seq<Pop>) { forall i, j :: 0 <= i < j < |pops| ==> pops[i].id != pops[j].id }

  /** Every directory entry names a configured pop. */
  predicate Configured(cfg: Config, s: Store) { forall n <- s.dir :: exists p :: p in cfg.pops && p.id == s.dir[n] }

  /** Only the first pop of the default area may hold more nodes than its maximum. */
  predicate WithinCapacity(cfg: Config, s: Store) {
    forall p <- cfg.pops :: |Of(s, p.id)| <= p.maxCount || Fallback(cfg) == Some(p)
  }

  ghost predicate Inv(cfg: Config, s: Store) { Agree(s) && Configured(cfg, s) && WithinCapacity(cfg, s) }

  lemma FirstPasses(pops: seq<Pop>, test: Pop -> bool)
    requires First(pops, test).Some?
    ensures First(pops, test).value in pops && test(First(pops, test).value)
  {
    FirstIsFirst(pops, test);
  }

  lemma AskKeepsInv(cfg: Config, s: Store, node: Node, where: Option<Location>)
    requires IdsDistinct(cfg.pops) && Inv(cfg, s)
    ensures Inv(cfg, AllocatePop(cfg, s, node, where).0)
  {
    var (t, pop) := AllocatePop(cfg, s, node, where);
    if node !in s.dir && pop.Some? {
      SetKeepsAgreement(s, node, pop.value.id);
      var suitable := Suitable(cfg, s, AreaOf(where.value));
      if suitable.Some? {
        FirstPasses(cfg.pops, (p: Pop) => p.area == AreaOf(where.value) && HasRoom(s, p));
      } else {
        FirstPasses(cfg.pops, (p: Pop) => p.area == cfg.defaultArea);
      }
      forall p | p in cfg.pops ensures |Of(t, p.id)| <= p.maxCount || Fallback(cfg) == Some(p) {
        if p.id == pop.value.id { assert p == pop.value; }
      }
    }
  }

  lemma DeleteKeepsInv(cfg: Config, s: Store, node: Node)
    requires Inv(cfg, s)
    ensures Inv(cfg, DeleteNode(s, node))
  {
    DeleteKeepsAgreement(s, node);
    forall p ensures |Of(DeleteNode(s, node), p)| <= |Of(s, p)| {
      Smaller(Of(s, p), node);
    }
  }

  lemma Smaller(nodes: set<Node>, node: Node)
    ensures |nodes - {node}| <= |nodes|
  {
    if node in nodes {
    } else {
      assert nodes - {node} == nodes;
    }
  }

  /** In every run of requests and deletions, the sets and the directory agree, and no pop but the first one of the
      default area holds more nodes than its maximum. */
  lemma {:induction false} RunKeepsInv(cfg: Config, es: seq<Event>)
    requires IdsDistinct(cfg.pops) && forall p <- cfg.pops :: p.maxCount >= 0
    ensures Inv(cfg, Run(cfg, EMPTY, es))
  {
    if es != [] {
      RunKeepsInv(cfg, es[..|es| - 1]);
      var s := Run(cfg, EMPTY, es[..|es| - 1]);
      match es[|es| - 1]
      case Asks(node, where) => AskKeepsInv(cfg, s, node, where);
      case Deletes(node) => DeleteKeepsInv(cfg, s, node);
    }
  }

  // ---------------------------------------------------------------- theorems

  /** Once allocated, a node keeps its pop through every run that does not delete it; asking again returns that pop and
      changes nothing. */
  lemma {:induction false} KeepsPop(cfg: Config, s: Store, es: seq<Event>, node: Node)
    requires node in s.dir && Deletes(node) !in es
    ensures node in Run(cfg, s, es).dir && Run(cfg, s, es).dir[node] == s.dir[node]
  {
    if es != [] {
      assert forall e <- es[..|es| - 1] :: e in es;
      KeepsPop(cfg, s, es[..|es| - 1], node);
      assert es[|es| - 1] in es;
    }
  }

  lemma AskingAgain(cfg: Config, es: seq<Event>, node: Node, where: Option<Location>)
    requires IdsDistinct(cfg.pops) && forall p <- cfg.pops :: p.maxCount >= 0
    requires node in Run(cfg, EMPTY, es).dir
    ensures var s := Run(cfg, EMPTY, es);
            var (t, pop) := AllocatePop(cfg, s, node, where);
            t == s && pop.Some? && pop.value in cfg.pops && pop.value.id == s.dir[node]
  {
    RunKeepsInv(cfg, es);
    FirstIsFirst(cfg.pops, (p: Pop) => p.id == Run(cfg, EMPTY, es).dir[node]);
  }

  /** A new node is refused exactly when its area has no pop with room and the default area has no pop at all (or its
      location is unknown); it is sent to a full pop only when its area has no room. */
  lemma RefusedExactly(cfg: Config, s: Store, node: Node, where: Option<Location>)
    requires node !in s.dir
    ensures AllocatePop(cfg, s, node, where).1.None? <==>
            where.None? ||
            forall p <- cfg.pops :: p.area != cfg.defaultArea && !(p.area == AreaOf(where.value) && HasRoom(s, p))
    ensures var pop := AllocatePop(cfg, s, node, where).1;
            pop.Some? && !HasRoom(s, pop.value) ==>
              (pop.value.area == cfg.defaultArea &&
               forall p <- cfg.pops :: p.area == AreaOf(where.value) ==> !HasRoom(s, p))
  {
    if where.Some? {
      FirstIsFirst(cfg.pops, (p: Pop) => p.area == AreaOf(where.value) && HasRoom(s, p));
      FirstIsFirst(cfg.pops, (p: Pop) => p.area == cfg.defaultArea);
    }
  }

  predicate RoomIn(s: Store, pop: Pop, area: string) { pop.area == area && |Of(s, pop.id)| < pop.maxCount }

  /** A new node goes to the first pop of its own area that has room - Hong Kong being an area, elsewhere the country -
      and only without one to the first pop of the default area. The directory notes exactly that. */
  lemma OwnAreaFirst(cfg: Config, s: Store, node: Node, where: Location)
    requires node !in s.dir
    ensures var area := if where.province == "Hong Kong" then "HongKong" else where.country;
            var (t, pop) := AllocatePop(cfg, s, node, Some(where));
            && t.dir == (if pop.Some? then s.dir[node := pop.value.id] else s.dir)
            && ((exists p :: p in cfg.pops && RoomIn(s, p, area)) ==>
                  exists k :: 0 <= k < |cfg.pops| && pop == Some(cfg.pops[k]) && RoomIn(s, cfg.pops[k], area) &&
                              forall j :: 0 <= j < k ==> !RoomIn(s, cfg.pops[j], area))
            && ((forall p <- cfg.pops :: !RoomIn(s, p, area)) && pop.Some? ==>
                  exists k :: 0 <= k < |cfg.pops| && pop == Some(cfg.pops[k]) && pop.value.area == cfg.defaultArea &&
                              forall j :: 0 <= j < k ==> cfg.pops[j].area != cfg.defaultArea)
  {
    FirstIsFirst(cfg.pops, (p: Pop) => p.area == AreaOf(where) && HasRoom(s, p));
    FirstIsFirst(cfg.pops, (p: Pop) => p.area == cfg.defaultArea);
  }

  function TotalCount(s: Store, pops: seq<Pop>): nat {
    if pops == [] then 0 else |Of(s, pops[0].id)| + TotalCount(s, pops[1..])
  }

  /** The nodes whose directory entry names one of the pops. */
  function Served(s: Store, pops: seq<Pop>): set<Node> {
    set n | n in s.dir && exists p :: p in pops && p.id == s.dir[n]
  }

  lemma ServedSplits(s: Store, pops: seq<Pop>)
    requires Agree(s) && IdsDistinct(pops) && pops != []
    ensures Served(s, pops) == Of(s, pops[0].id) + Served(s, pops[1..])
    ensures Of(s, pops[0].id) !! Served(s, pops[1..])
  {
    var id, rest := pops[0].id, pops[1..];
    assert forall p <- rest :: p.id != id;
    forall n ensures n in Served(s, pops) <==> n in Of(s, id) || n in Served(s, rest) {
      assert n in Of(s, id) <==> n in s.dir && s.dir[n] == id;
      if n in Served(s, pops) {
        var p :| p in pops && p.id == s.dir[n];
        assert p == pops[0] || p in rest;
      }
      if n in Of(s, id) { assert pops[0] in pops && pops[0].id == s.dir[n]; }
      if n in Served(s, rest) {
        var p :| p in rest && p.id == s.dir[n];
        assert p in pops;
      }
    }
    forall n | n in Of(s, id) ensures n !in Served(s, rest) {
      assert n in s.dir && s.dir[n] == id;
    }
  }

  lemma {:induction false} CountsAddUp(s: Store, pops: seq<Pop>)
    requires Agree(s) && IdsDistinct(pops)
    ensures TotalCount(s, pops) == |Served(s, pops)|
  {
    if pops == [] {
      assert Served(s, pops) == {};
    } else {
      CountsAddUp(s, pops[1..]);
      ServedSplits(s, pops);
    }
  }

  /** In every run the configured pops' counts add up to the number of nodes in the directory. */
  lemma NobodyLost(cfg: Config, es: seq<Event>)
    requires IdsDistinct(cfg.pops) && forall p <- cfg.pops :: p.maxCount >= 0
    ensures TotalCount(Run(cfg, EMPTY, es), cfg.pops) == |Run(cfg, EMPTY, es).dir|
  {
    var s := Run(cfg, EMPTY, es);
    RunKeepsInv(cfg, es);
    CountsAddUp(s, cfg.pops);
    assert Served(s, cfg.pops) == s.dir.Keys;
  }
}
