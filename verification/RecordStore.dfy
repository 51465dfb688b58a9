/** The record mapper as it runs, over a buffer of field values, and the hashes of users and nodes that it fills. */
module RecordStore {
  import opened Prelude
  import opened Decimal
  import opened RecordMap
  import Pool = PoolStore

  /** Fills a map with the tagged fields. */
  method StructToMap(schema: Schema, fields: array<Value>) returns (out: map<string, string>)
    requires fields.Length == |schema|
    ensures out == Write(schema, fields[..])
  {
    out := map[];
    for i := 0 to |schema|
      invariant out == WriteFirst(schema, fields[..], i)
    {
      var f := schema[i];
      if f.exported {
        if f.tag != "" && f.tag != "-" {
          out := out[f.tag := Print(fields[i])];
        }
      }
    }
  }

  /** Sets fields in place; on an error, those before it stay set. */
  method MapToStruct(schema: Schema, data: map<string, string>, fields: array<Value>) returns (ok: bool)
    requires fields.Length == |schema|
    modifies fields
    ensures (fields[..], ok) == Read(schema, data, old(fields[..]))
  {
    for i := 0 to |schema|
      invariant Read(schema, data, old(fields[..])) == ReadFrom(schema, data, fields[..], i)
    {
      var f := schema[i];
      ghost var before := fields[..];
      if f.exported {
        var key := f.name;
        if f.tag != "" && f.tag != "-" {
          key := f.tag;
        }
        if key in data {
          var v := Parse(f.kind, data[key]);
          if v.None? {
            return false;
          }
          fields[i] := v.value;
        }
      }
      assert fields[..] == before[i := fields[i]];
    }
    ok := true;
  }

  // ---------------------------------------------------------------- users and nodes as records

  const USER_SCHEMA: Schema := [
    Field("UserName", "user_name", Str, true), Field("PasswordMD5", "password_md5", Str, true),
    Field("StartTime", "start_time", Int64, true), Field("EndTime", "end_time", Int64, true),
    Field("TotalTraffic", "total_traffic", Int64, true), Field("CurrentTraffic", "current_traffic", Int64, true),
    Field("RouteMode", "route_mode", Int64, true), Field("RouteNodeID", "route_node_id", Str, true),
    Field("UpdateRouteIntervals", "update_route_intervals", Int64, true),
    Field("UpdateRouteTime", "update_route_time", Int64, true), Field("Off", "off", Bool, true),
    Field("UploadRateLimit", "upload_rate_limit", Int64, true),
    Field("DownloadRateLimit", "download_rate_limit", Int64, true)]

  function UserRecord(u: Pool.User): Record {
    [S(u.userName), S(u.passwordMD5), I(u.startTime), I(u.endTime), I(u.totalTraffic), I(u.currentTraffic),
     I(u.routeMode), S(u.routeNodeID), I(u.updateRouteIntervals), I(u.updateRouteTime), B(u.off),
     I(u.uploadRateLimit), I(u.downloadRateLimit)]
  }

  lemma UserLengths()
    ensures forall i :: 0 <= i < |USER_SCHEMA| ==>
                          |USER_SCHEMA[i].tag| == [9, 12, 10, 8, 13, 15, 10, 13, 22, 17, 3, 17, 19][i]
  {
  }

  lemma UserKinds()
    ensures forall i :: 0 <= i < |USER_SCHEMA| ==> USER_SCHEMA[i].exported && !USER_SCHEMA[i].kind.Unsupported?
  {
  }

  lemma UserTagged()
    ensures forall f <- USER_SCHEMA :: Tagged(f) && !f.kind.Unsupported?
  {
    UserKinds();
    UserLengths();
    forall f <- USER_SCHEMA ensures Tagged(f) && !f.kind.Unsupported? {
      var i :| 0 <= i < |USER_SCHEMA| && USER_SCHEMA[i] == f;
      assert |f.tag| == [9, 12, 10, 8, 13, 15, 10, 13, 22, 17, 3, 17, 19][i] > 1;
    }
  }

  /** Tags of equal length differ in a letter. */
  lemma UserTagsDiffer()
    ensures USER_SCHEMA[2].tag != USER_SCHEMA[6].tag
    ensures USER_SCHEMA[4].tag != USER_SCHEMA[7].tag
    ensures USER_SCHEMA[9].tag != USER_SCHEMA[11].tag
  {
    assert USER_SCHEMA[2].tag[0] != USER_SCHEMA[6].tag[0];
    assert USER_SCHEMA[4].tag[0] != USER_SCHEMA[7].tag[0];
    assert USER_SCHEMA[9].tag[2] != USER_SCHEMA[11].tag[2];
  }

  lemma UserKeysDistinct()
    ensures KeysDistinct(USER_SCHEMA)
  {
    UserLengths();
    UserTagsDiffer();
    forall i, j | 0 <= i < j < |USER_SCHEMA| ensures USER_SCHEMA[i].tag != USER_SCHEMA[j].tag {
      var l := [9, 12, 10, 8, 13, 15, 10, 13, 22, 17, 3, 17, 19];
      assert |USER_SCHEMA[i].tag| == l[i] && |USER_SCHEMA[j].tag| == l[j];
      assert l[i] != l[j] || (i == 2 && j == 6) || (i == 4 && j == 7) || (i == 9 && j == 11);
    }
  }

  lemma UserSchemaOk()
    ensures KeysDistinct(USER_SCHEMA) && Readable(USER_SCHEMA) && NoNameIsTag(USER_SCHEMA)
  {
    UserTagged();
    UserKeysDistinct();
  }

  const NODE_SCHEMA: Schema := [
    Field("Id", "", Str, true), Field("OS", "os", Str, true), Field("LoginAt", "login_at", Str, true),
    Field("RegisterAt", "register_at", Str, true), Field("Online", "", Bool, true), Field("IP", "ip", Str, true),
    Field("BindUser", "bind_user", Str, true), Field("NetDelay", "net_delay", Int64, true)]

  function NodeRecord(id: string, online: bool, n: Pool.Node): Record {
    [S(id), S(n.os), S(n.loginAt), S(n.registerAt), B(online), S(n.ip), S(n.bindUser), I(n.netDelay)]
  }

  lemma NodeLengths()
    ensures forall i :: 0 <= i < |NODE_SCHEMA| ==> |NODE_SCHEMA[i].tag| == [0, 2, 8, 11, 0, 2, 9, 9][i]
    ensures |NODE_SCHEMA[0].name| == 2 && |NODE_SCHEMA[4].name| == 6
  {
  }

  lemma NodeTagsDiffer()
    ensures NODE_SCHEMA[1].tag != NODE_SCHEMA[5].tag && NODE_SCHEMA[6].tag != NODE_SCHEMA[7].tag
    ensures NODE_SCHEMA[0].name != NODE_SCHEMA[1].tag && NODE_SCHEMA[0].name != NODE_SCHEMA[5].tag
  {
    assert NODE_SCHEMA[1].tag[0] != NODE_SCHEMA[5].tag[0];
    assert NODE_SCHEMA[6].tag[0] != NODE_SCHEMA[7].tag[0];
    assert NODE_SCHEMA[0].name[0] != NODE_SCHEMA[1].tag[0];
    assert NODE_SCHEMA[0].name[0] != NODE_SCHEMA[5].tag[0];
  }

  lemma NodeTagged()
    ensures forall i :: 0 <= i < |NODE_SCHEMA| ==> (Tagged(NODE_SCHEMA[i]) <==> i != 0 && i != 4)
  {
    NodeLengths();
    var l := [0, 2, 8, 11, 0, 2, 9, 9];
    forall i | 0 <= i < |NODE_SCHEMA| ensures Tagged(NODE_SCHEMA[i]) <==> i != 0 && i != 4 {
      assert |NODE_SCHEMA[i].tag| == l[i];
    }
  }

  lemma NodeKeysDistinct()
    ensures KeysDistinct(NODE_SCHEMA) && NoNameIsTag(NODE_SCHEMA)
  {
    NodeTagged();
    NodeLengths();
    NodeTagsDiffer();
    var l := [0, 2, 8, 11, 0, 2, 9, 9];
    forall i, j | 0 <= i < j < |NODE_SCHEMA| && i != 0 && i != 4 && j != 4
      ensures NODE_SCHEMA[i].tag != NODE_SCHEMA[j].tag
    {
      assert |NODE_SCHEMA[i].tag| == l[i] && |NODE_SCHEMA[j].tag| == l[j];
    }
    forall j | 0 <= j < |NODE_SCHEMA| && j != 0 && j != 4
      ensures NODE_SCHEMA[0].name != NODE_SCHEMA[j].tag && NODE_SCHEMA[4].name != NODE_SCHEMA[j].tag
    {
      assert |NODE_SCHEMA[j].tag| == l[j];
    }
  }

  lemma NodeReadable()
    ensures Readable(NODE_SCHEMA)
  {
  }

  lemma NodeSchemaOk()
    ensures KeysDistinct(NODE_SCHEMA) && Readable(NODE_SCHEMA) && NoNameIsTag(NODE_SCHEMA)
    ensures forall i :: 0 <= i < |NODE_SCHEMA| ==> (Tagged(NODE_SCHEMA[i]) <==> i != 0 && i != 4)
  {
    NodeTagged();
    NodeKeysDistinct();
    NodeReadable();
  }

  // ---------------------------------------------------------------- hashes

  type Hash = map<string, string>

  predicate Fits64(u: Pool.User) {
    forall v <- [u.startTime, u.endTime, u.totalTraffic, u.currentTraffic, u.routeMode, u.updateRouteIntervals,
                 u.updateRouteTime, u.uploadRateLimit, u.downloadRateLimit] :: -TWO_63 <= v < TWO_63
  }

  /** Writing into a hash keeps the entries that are not written. */
  function Save(hash: Hash, schema: Schema, r: Record): Hash
    requires |schema| == |r|
  {
    hash + Write(schema, r)
  }

  /** What is read of a saved record does not depend on what the hash held before, as long as that was no entry named
      like an untagged field. */
  lemma SavedReadsBack(hash: Hash, schema: Schema, r: Record, onto: Record)
    requires KeysDistinct(schema) && Readable(schema) && Typed(schema, r) && Typed(schema, onto)
    requires forall f <- schema :: f.exported && (!Tagged(f) ==> Key(f) !in hash)
    requires NoNameIsTag(schema)
    ensures Read(schema, Save(hash, schema, r), onto) == (Overlay(schema, r, onto), true)
  {
    RoundTrip(schema, r, onto);
    var data, saved := Write(schema, r), Save(hash, schema, r);
    forall i | 0 <= i < |schema|
      ensures ReadField(schema[i], saved, onto[i]) == Some(Overlay(schema, r, onto)[i])
    {
      if Tagged(schema[i]) {
        WrittenFirst(schema, r, |schema|, i);
        FieldComesBack(schema, r, onto, i);
      } else {
        FieldIsLeft(schema, r, onto, i);
        WrittenKeys(schema, r, |schema|, Key(schema[i]));
      }
    }
    ReadFromIs(schema, saved, onto, 0);
    assert Read(schema, saved, onto).0 == Overlay(schema, r, onto);
  }

  /** Distinct users have distinct records, so a record determines its user. */
  lemma UserRecordInjective(u: Pool.User, v: Pool.User)
    requires UserRecord(u) == UserRecord(v)
    ensures u == v
  {
    var r, t := UserRecord(u), UserRecord(v);
    assert r[0] == t[0] && r[1] == t[1] && r[2] == t[2] && r[3] == t[3] && r[4] == t[4] && r[5] == t[5] && r[6] == t[6];
    assert r[7] == t[7] && r[8] == t[8] && r[9] == t[9] && r[10] == t[10] && r[11] == t[11] && r[12] == t[12];
  }

  /** Reading the hash of a user gives the user last saved, whatever the hash held before and whatever record the
      fields are read onto; and no other user has that record. */
  lemma SavedUserReadsBack(hash: Hash, u: Pool.User, onto: Record)
    requires Fits64(u) && Typed(USER_SCHEMA, onto)
    ensures Save(hash, USER_SCHEMA, UserRecord(u)) != map[]
    ensures Read(USER_SCHEMA, Save(hash, USER_SCHEMA, UserRecord(u)), onto) == (UserRecord(u), true)
    ensures forall v :: Read(USER_SCHEMA, Save(hash, USER_SCHEMA, UserRecord(u)), onto).0 == UserRecord(v) ==> v == u
  {
    forall v | UserRecord(u) == UserRecord(v) ensures v == u {
      UserRecordInjective(u, v);
    }
    UserSchemaOk();
    UserTagged();
    UserTyped(u);
    SavedReadsBack(hash, USER_SCHEMA, UserRecord(u), onto);
    assert Overlay(USER_SCHEMA, UserRecord(u), onto) == UserRecord(u);
    WrittenFirst(USER_SCHEMA, UserRecord(u), 13, 0);
    assert USER_SCHEMA[0].tag in Save(hash, USER_SCHEMA, UserRecord(u));
  }

  lemma UserTyped(u: Pool.User)
    requires Fits64(u)
    ensures Typed(USER_SCHEMA, UserRecord(u))
  {
    var l := [u.startTime, u.endTime, u.totalTraffic, u.currentTraffic, u.routeMode, u.updateRouteIntervals,
              u.updateRouteTime, u.uploadRateLimit, u.downloadRateLimit];
    assert l[0] in l && l[1] in l && l[2] in l && l[3] in l && l[4] in l;
    assert l[5] in l && l[6] in l && l[7] in l && l[8] in l;
  }

  /** A node's hash gives back all its stored fields; the id and the online flag, which are not stored, stay as they
      were in the struct read onto. */
  lemma SavedNodeReadsBack(hash: Hash, n: Pool.Node, id: string, online: bool, id': string, online': bool,
                           other: Pool.Node)
    requires -TWO_63 <= n.netDelay < TWO_63 && -TWO_63 <= other.netDelay < TWO_63
    requires "Id" !in hash && "Online" !in hash
    ensures Read(NODE_SCHEMA, Save(hash, NODE_SCHEMA, NodeRecord(id, online, n)), NodeRecord(id', online', other)) ==
            (NodeRecord(id', online', n), true)
  {
    NodeSchemaOk();
    NodeTyped(id, online, n);
    NodeTyped(id', online', other);
    NodeUntagged();
    SavedReadsBack(hash, NODE_SCHEMA, NodeRecord(id, online, n), NodeRecord(id', online', other));
    NodeOverlay(id, online, n, id', online', other);
  }

  lemma NodeTyped(id: string, online: bool, n: Pool.Node)
    requires -TWO_63 <= n.netDelay < TWO_63
    ensures Typed(NODE_SCHEMA, NodeRecord(id, online, n))
  {
  }

  lemma NodeUntagged()
    ensures forall f <- NODE_SCHEMA :: f.exported && (!Tagged(f) ==> Key(f) == "Id" || Key(f) == "Online")
  {
    NodeSchemaOk();
    forall i | 0 <= i < |NODE_SCHEMA|
      ensures NODE_SCHEMA[i].exported
      ensures !Tagged(NODE_SCHEMA[i]) ==> Key(NODE_SCHEMA[i]) == "Id" || Key(NODE_SCHEMA[i]) == "Online"
    {
      assert NODE_SCHEMA[0].name == "Id" && NODE_SCHEMA[4].name == "Online";
    }
  }

  lemma NodeOverlay(id: string, online: bool, n: Pool.Node, id': string, online': bool, other: Pool.Node)
    ensures Overlay(NODE_SCHEMA, NodeRecord(id, online, n), NodeRecord(id', online', other)) ==
            NodeRecord(id', online', n)
  {
    NodeSchemaOk();
  }

  // ---------------------------------------------------------------- what the hashes hold

  predicate Holds(hash: Hash, key: string, text: string) { key in hash && hash[key] == text }

  lemma FieldHeld(hash: Hash, schema: Schema, r: Record, i: nat)
    requires i < |schema| == |r| && KeysDistinct(schema) && Tagged(schema[i])
    ensures Holds(Save(hash, schema, r), schema[i].tag, Print(r[i]))
  {
    WrittenFirst(schema, r, |schema|, i);
  }

  lemma UserFieldHeld(hash: Hash, u: Pool.User, i: nat)
    requires i < |USER_SCHEMA|
    ensures Holds(Save(hash, USER_SCHEMA, UserRecord(u)), USER_SCHEMA[i].tag, Print(UserRecord(u)[i]))
  {
    UserSchemaOk();
    UserTagged();
    FieldHeld(hash, USER_SCHEMA, UserRecord(u), i);
  }

  lemma UserTags()
    ensures USER_SCHEMA[0].tag == "user_name" && USER_SCHEMA[1].tag == "password_md5"
    ensures USER_SCHEMA[2].tag == "start_time" && USER_SCHEMA[3].tag == "end_time"
    ensures USER_SCHEMA[4].tag == "total_traffic" && USER_SCHEMA[5].tag == "current_traffic"
    ensures USER_SCHEMA[6].tag == "route_mode" && USER_SCHEMA[7].tag == "route_node_id"
    ensures USER_SCHEMA[8].tag == "update_route_intervals" && USER_SCHEMA[9].tag == "update_route_time"
    ensures USER_SCHEMA[10].tag == "off"
    ensures USER_SCHEMA[11].tag == "upload_rate_limit" && USER_SCHEMA[12].tag == "download_rate_limit"
  {
  }

  lemma UserValues(u: Pool.User)
    ensures var r := UserRecord(u);
            && r[0] == S(u.userName) && r[1] == S(u.passwordMD5) && r[2] == I(u.startTime) && r[3] == I(u.endTime)
            && r[4] == I(u.totalTraffic) && r[5] == I(u.currentTraffic) && r[6] == I(u.routeMode)
            && r[7] == S(u.routeNodeID) && r[8] == I(u.updateRouteIntervals) && r[9] == I(u.updateRouteTime)
            && r[10] == B(u.off) && r[11] == I(u.uploadRateLimit) && r[12] == I(u.downloadRateLimit)
  {
  }

  /** The hash of a saved user has its name, password digest and bound node as they are, ... */
  lemma UserHashTexts(hash: Hash, u: Pool.User)
    ensures var h := Save(hash, USER_SCHEMA, UserRecord(u));
            && Holds(h, "user_name", u.userName) && Holds(h, "password_md5", u.passwordMD5)
            && Holds(h, "route_node_id", u.routeNodeID)
  {
    UserTags();
    UserValues(u);
    UserFieldHeld(hash, u, 0);
    UserFieldHeld(hash, u, 1);
    UserFieldHeld(hash, u, 7);
  }

  /** ... times and traffic in decimal, ... */
  lemma UserHashTraffic(hash: Hash, u: Pool.User)
    ensures var h := Save(hash, USER_SCHEMA, UserRecord(u));
            && Holds(h, "start_time", PrintInt(u.startTime)) && Holds(h, "end_time", PrintInt(u.endTime))
            && Holds(h, "total_traffic", PrintInt(u.totalTraffic))
            && Holds(h, "current_traffic", PrintInt(u.currentTraffic))
  {
    UserTags();
    UserValues(u);
    UserFieldHeld(hash, u, 2);
    UserFieldHeld(hash, u, 3);
    UserFieldHeld(hash, u, 4);
    UserFieldHeld(hash, u, 5);
  }

  /** ... and so the route, the limits, and in letters whether it is off. */
  lemma UserHashRoute(hash: Hash, u: Pool.User)
    ensures var h := Save(hash, USER_SCHEMA, UserRecord(u));
            && Holds(h, "route_mode", PrintInt(u.routeMode)) && Holds(h, "off", if u.off then "true" else "false")
            && Holds(h, "update_route_intervals", PrintInt(u.updateRouteIntervals))
            && Holds(h, "update_route_time", PrintInt(u.updateRouteTime))
            && Holds(h, "upload_rate_limit", PrintInt(u.uploadRateLimit))
            && Holds(h, "download_rate_limit", PrintInt(u.downloadRateLimit))
  {
    UserTags();
    UserValues(u);
    UserFieldHeld(hash, u, 6);
    UserFieldHeld(hash, u, 8);
    UserFieldHeld(hash, u, 9);
    UserFieldHeld(hash, u, 10);
    UserFieldHeld(hash, u, 11);
    UserFieldHeld(hash, u, 12);
  }

  /** The hash of a saved node holds its own six fields, and neither its id nor whether it is online. */
  lemma NodeHash(hash: Hash, id: string, online: bool, n: Pool.Node)
    ensures var h := Save(hash, NODE_SCHEMA, NodeRecord(id, online, n));
            && Holds(h, "os", n.os) && Holds(h, "ip", n.ip) && Holds(h, "bind_user", n.bindUser)
            && Holds(h, "login_at", n.loginAt) && Holds(h, "register_at", n.registerAt)
            && Holds(h, "net_delay", PrintInt(n.netDelay)) && h.Keys <= hash.Keys + NODE_TAGS
  {
    NodeSchemaOk();
    FieldHeld(hash, NODE_SCHEMA, NodeRecord(id, online, n), 1);
    FieldHeld(hash, NODE_SCHEMA, NodeRecord(id, online, n), 2);
    FieldHeld(hash, NODE_SCHEMA, NodeRecord(id, online, n), 3);
    FieldHeld(hash, NODE_SCHEMA, NodeRecord(id, online, n), 5);
    FieldHeld(hash, NODE_SCHEMA, NodeRecord(id, online, n), 6);
    FieldHeld(hash, NODE_SCHEMA, NodeRecord(id, online, n), 7);
    NodeHashKeys(id, online, n);
  }

  const NODE_TAGS := {"os", "ip", "bind_user", "login_at", "register_at", "net_delay"}

  lemma NodeHashKeys(id: string, online: bool, n: Pool.Node)
    ensures Write(NODE_SCHEMA, NodeRecord(id, online, n)).Keys <= NODE_TAGS
  {
    NodeSchemaOk();
    var r := NodeRecord(id, online, n);
    forall key | key in Write(NODE_SCHEMA, r) ensures key in NODE_TAGS {
      WrittenKeys(NODE_SCHEMA, r, |NODE_SCHEMA|, key);
      var i :| 0 <= i < |NODE_SCHEMA| && Tagged(NODE_SCHEMA[i]) && NODE_SCHEMA[i].tag == key;
    }
  }
}
