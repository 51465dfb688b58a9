/** The node pool as Redis stores it, and the operations of ippop/api/model on it. Each Redis transaction, together
    with the reads before it, is one step. */
module PoolStore {
  import opened Prelude

  /** A node hash; `bindUser` is empty when no user is bound to the node. */
  datatype Node = Node(
    os: string, ip: string, loginAt: string, registerAt: string, bindUser: string, netDelay: int)

  datatype User = User(
    userName: string, passwordMD5: string, startTime: int, endTime: int, totalTraffic: int, currentTraffic: int,
    routeMode: int, routeNodeID: string, updateRouteIntervals: int, updateRouteTime: int, off: bool,
    uploadRateLimit: int, downloadRateLimit: int)

  /** Hashes, the two listing indexes, the bind set, the free set with its scores, and the online set. */
  datatype Store = Store(
    nodes: map<string, Node>, users: map<string, User>, nodeZset: set<string>, userZset: set<string>,
    bind: set<string>, free: map<string, int>, online: set<string>)

  datatype Outcome =
    | Ok
    | NodeNotExist
    | AlreadyBound
    | NoFreeNode
    | UserExists
    | UserNotExist
    | SameNode
    | NodeOffline
    | InvalidRoute
    | InvalidTraffic
    | MissingArgument

  // ---------------------------------------------------------------- sorted sets

  /** The order of members with equal scores. */
  predicate LexLe(a: string, b: string) {
    a == [] || (b != [] && (a[0] < b[0] || (a[0] == b[0] && LexLe(a[1..], b[1..]))))
  }

  /** Dictionary order: a prefix comes first, and otherwise the first letter that differs decides. */
  lemma {:induction false} LexIsDictionary(a: string, b: string)
    ensures LexLe(a, b) <==>
            a <= b || exists k :: 0 <= k < |a| && k < |b| && a[..k] == b[..k] && a[k] < b[k]
  {
    if a != [] && b != [] {
      LexIsDictionary(a[1..], b[1..]);
      assert a == [a[0]] + a[1..] && b == [b[0]] + b[1..];
      if a[0] < b[0] {
        assert a[..0] == b[..0];
      } else if a[0] == b[0] {
        FirstDifference(a, b);
      }
    }
  }

  lemma FirstDifference(a: string, b: string)
    requires a != [] && b != [] && a[0] == b[0]
    ensures (exists k :: 0 <= k < |a| && k < |b| && a[..k] == b[..k] && a[k] < b[k]) <==>
            (exists k :: 0 <= k < |a[1..]| && k < |b[1..]| && a[1..][..k] == b[1..][..k] && a[1..][k] < b[1..][k])
  {
    if k :| 0 <= k < |a| && k < |b| && a[..k] == b[..k] && a[k] < b[k] {
      assert k > 0 && a[1..][..k - 1] == a[..k][1..] && b[1..][..k - 1] == b[..k][1..];
      assert a[1..][k - 1] < b[1..][k - 1];
    }
    if k :| 0 <= k < |a[1..]| && k < |b[1..]| && a[1..][..k] == b[1..][..k] && a[1..][k] < b[1..][k] {
      assert a[..k + 1] == [a[0]] + a[1..][..k] && b[..k + 1] == [b[0]] + b[1..][..k];
      assert a[k + 1] < b[k + 1];
    }
  }

  lemma {:induction false} LexTotal(a: string, b: string)
    ensures LexLe(a, b) || LexLe(b, a)
    ensures LexLe(a, b) && LexLe(b, a) ==> a == b
  {
    if a != [] && b != [] {
      LexTotal(a[1..], b[1..]);
      assert a == [a[0]] + a[1..] && b == [b[0]] + b[1..];
    }
  }

  lemma {:induction false} LexTrans(a: string, b: string, c: string)
    requires LexLe(a, b) && LexLe(b, c)
    ensures LexLe(a, c)
  {
    if a != [] {
      if a[0] == b[0] == c[0] {
        LexTrans(a[1..], b[1..], c[1..]);
      }
    }
  }

  predicate NotAfter(zset: map<string, int>, a: string, b: string)
    requires a in zset && b in zset
  {
    zset[a] < zset[b] || (zset[a] == zset[b] && LexLe(a, b))
  }

  predicate IsMin(zset: map<string, int>, id: string) {
    id in zset && forall x <- zset :: NotAfter(zset, id, x)
  }

  lemma MinUnique(zset: map<string, int>, a: string, b: string)
    requires IsMin(zset, a) && IsMin(zset, b)
    ensures a == b
  {
    LexTotal(a, b);
  }

  lemma {:induction false} MinExists(zset: map<string, int>)
    requires zset != map[]
    ensures exists id :: IsMin(zset, id)
    decreases |zset|
  {
    var k :| k in zset;
    var rest := zset - {k};
    LexTotal(k, k);
    if rest == map[] {
      assert forall x <- zset :: x != k ==> x in rest;
      assert IsMin(zset, k);
    } else {
      MinExists(rest);
      var m :| IsMin(rest, m);
      LexTotal(k, m);
      if NotAfter(zset, m, k) {
        assert forall x <- zset :: x == k || x in rest;
        assert IsMin(zset, m);
      } else {
        forall x <- zset ensures NotAfter(zset, k, x) {
          if x != k {
            assert x in rest && NotAfter(rest, m, x);
            if zset[k] == zset[m] == zset[x] {
              LexTrans(k, m, x);
            }
          }
        }
        assert IsMin(zset, k);
      }
    }
  }

  /** What ZPOPMIN takes. */
  ghost function MinFree(zset: map<string, int>): (r: Option<string>)
    ensures r.None? <==> zset == map[]
    ensures r.Some? ==> IsMin(zset, r.value)
  {
    if zset == map[] then None
    else
      MinExists(zset);
      var id :| IsMin(zset, id);
      Some(id)
  }

  // ---------------------------------------------------------------- ippop/api/model/bind.go

  function AddFreeNode(s: Store, id: string, now: int): Store { s.(free := s.free[id := now]) }

  function RemoveFreeNode(s: Store, id: string): Store { s.(free := s.free - {id}) }

  function SetBindUser(s: Store, id: string, name: string): Store
    requires id in s.nodes
  {
    s.(nodes := s.nodes[id := s.nodes[id].(bindUser := name)])
  }

  /** Binds a new user to a node. A refusal puts the node back into the free set if it is online. */
  function BindNodeWithNewUser(s: Store, id: string, user: User, now: int): (Store, Outcome) {
    if id !in s.nodes then (s, NodeNotExist)
    else if s.nodes[id].bindUser != "" then
      (if id in s.online then AddFreeNode(s, id, now) else s, AlreadyBound)
    else
      (SetBindUser(s, id, user.userName).(
         users := s.users[user.userName := user], userZset := s.userZset + {user.userName},
         bind := s.bind + {id}, free := s.free - {id}), Ok)
  }

  function UnbindNode(s: Store, id: string, now: int): (Store, Outcome) {
    if id !in s.nodes then (s, NodeNotExist)
    else
      var t := SetBindUser(s, id, "").(bind := s.bind - {id});
      (if id in s.online then AddFreeNode(t, id, now) else t, Ok)
  }

  /** Moves `user` from the node it is routed to onto node `to`, and saves the user's record. */
  function SwitchNodeByUser(s: Store, user: User, to: string, now: int): (Store, Outcome) {
    var from := user.routeNodeID;
    if from !in s.nodes || to !in s.nodes then (s, NodeNotExist)
    else if s.nodes[to].bindUser != "" then (s, AlreadyBound)
    else
      var freed := if from in s.online then s.free[from := now] else s.free;
      (s.(nodes := s.nodes[from := s.nodes[from].(bindUser := "")][to := s.nodes[to].(bindUser := user.userName)],
          users := s.users[user.userName := user.(routeNodeID := to)],
          bind := s.bind - {from} + {to}, free := freed - {to}), Ok)
  }

  ghost function AllocateFreeNode(s: Store): (Store, Option<string>) {
    match MinFree(s.free)
    case None => (s, None)
    case Some(id) => (s.(free := s.free - {id}), Some(id))
  }

  // ---------------------------------------------------------------- ippop/api/model/node.go and user.go

  function SetNodeAndZadd(s: Store, id: string, node: Node): Store {
    s.(nodes := s.nodes[id := node], nodeZset := s.nodeZset + {id})
  }

  function SaveUser(s: Store, user: User): Store { s.(users := s.users[user.userName := user]) }

  function DeleteUserRecord(s: Store, name: string): Store {
    s.(users := s.users - {name}, userZset := s.userZset - {name})
  }

  /** The start-up of the front end forgets which nodes were online. */
  function DeleteNodeOnlineData(s: Store): Store { s.(online := {}, free := map[]) }
}
