/** Pop allocation as it runs: searches over the configured pops, and a store that is updated in place. */
module PopService {
  import opened Prelude
  import A = PopAllocation

  class Redis {
    var dir: map<A.Node, A.PopId>
    var members: map<A.PopId, set<A.Node>>

    constructor ()
      ensures State() == A.EMPTY
    {
      dir, members := map[], map[];
    }

    function State(): A.Store
      reads this
    {
      A.Store(dir, members)
    }

    method SetNodePop(node: A.Node, pop: A.PopId)
      modifies this
      ensures State() == A.SetNodePop(old(State()), node, pop)
    {
      dir := dir[node := pop];
      var nodes := if pop in members then members[pop] else {};
      members := members[pop := nodes + {node}];
    }

    method GetNodePop(node: A.Node) returns (pop: Option<A.PopId>)
      ensures pop == if node in dir then Some(dir[node]) else None
    {
      pop := if node in dir then Some(dir[node]) else None;
    }

    method DeleteNode(node: A.Node)
      modifies this
      ensures State() == A.DeleteNode(old(State()), node)
    {
      var found := GetNodePop(node);
      var pop := if found.Some? then found.value else "";
      dir := dir - {node};
      if pop in members {
        members := members[pop := members[pop] - {node}];
      }
    }

    method NodeCountOfPop(pop: A.PopId) returns (n: nat)
      ensures n == |A.Of(State(), pop)|
    {
      n := if pop in members then |members[pop]| else 0;
    }
  }

  /** The first configured pop with the id. */
  method FindPop(cfg: A.Config, id: A.PopId) returns (pop: Option<A.Pop>)
    ensures pop == A.First(cfg.pops, (p: A.Pop) => p.id == id)
  {
    ghost var test := (p: A.Pop) => p.id == id;
    for i := 0 to |cfg.pops|
      invariant A.First(cfg.pops, test) == A.First(cfg.pops[i..], test)
    {
      NextFirst(cfg.pops, i, test);
      if cfg.pops[i].id == id {
        return Some(cfg.pops[i]);
      }
    }
    pop := None;
  }

  lemma NextFirst(pops: seq<A.Pop>, i: nat, test: A.Pop -> bool)
    requires i < |pops|
    ensures A.First(pops[i..], test) == if test(pops[i]) then Some(pops[i]) else A.First(pops[i + 1..], test)
  {
    assert pops[i..][1..] == pops[i + 1..];
  }

  method AllocatePop(redis: Redis, cfg: A.Config, node: A.Node, where: Option<A.Location>) returns (pop: Option<A.Pop>)
    modifies redis
    ensures (redis.State(), pop) == A.AllocatePop(cfg, old(redis.State()), node, where)
  {
    var mapped := redis.GetNodePop(node);
    if mapped.Some? {
      pop := FindPop(cfg, mapped.value);
      return;
    }
    if where.None? {
      return None;
    }
    var area := if where.value.province == "Hong Kong" then "HongKong" else where.value.country;
    pop := FindSuitable(redis, cfg, area);
    if pop.None? {
      pop := FindFallback(cfg);
    }
    if pop.Some? {
      redis.SetNodePop(node, pop.value.id);
    }
  }

  method FindSuitable(redis: Redis, cfg: A.Config, area: string) returns (pop: Option<A.Pop>)
    ensures pop == A.Suitable(cfg, redis.State(), area)
  {
    ghost var s := redis.State();
    ghost var test := (p: A.Pop) => p.area == area && A.HasRoom(s, p);
    for i := 0 to |cfg.pops|
      invariant A.First(cfg.pops, test) == A.First(cfg.pops[i..], test)
    {
      NextFirst(cfg.pops, i, test);
      if cfg.pops[i].area == area {
        var count := redis.NodeCountOfPop(cfg.pops[i].id);
        if count < cfg.pops[i].maxCount {
          return Some(cfg.pops[i]);
        }
      }
    }
    pop := None;
  }

  method FindFallback(cfg: A.Config) returns (pop: Option<A.Pop>)
    ensures pop == A.Fallback(cfg)
  {
    ghost var test := (p: A.Pop) => p.area == cfg.defaultArea;
    for i := 0 to |cfg.pops|
      invariant A.First(cfg.pops, test) == A.First(cfg.pops[i..], test)
    {
      NextFirst(cfg.pops, i, test);
      if cfg.pops[i].area == cfg.defaultArea {
        return Some(cfg.pops[i]);
      }
    }
    pop := None;
  }
}
