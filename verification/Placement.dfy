/** Building a pool from its configuration: numbering shards, servers and mirrors. */
module Placement {
  import opened Text
  import opened Failover

  datatype ServerConfig = ServerConfig(host: string, port: nat, role: Role)
  datatype MirrorConfig = MirrorConfig(host: string, port: nat, target: nat)
  datatype ShardConfig = ShardConfig(servers: seq<ServerConfig>, mirrors: seq<MirrorConfig>)

  type Shards = map<string, ShardConfig>

  /** `shard_idx.parse::<usize>()`, which `Pool::validate` has seen succeed. */
  predicate IsNumber(key: string) {
    ParseNat(Unsigned(key)).Some?
  }

  function Number(key: string): nat
    requires IsNumber(key)
  {
    ParseNat(Unsigned(key)).value
  }

  /** What `Pool::validate` and `Shard::validate` let through. */
  predicate Validated(shards: Shards) {
    forall k :: k in shards ==> IsNumber(k) && shards[k].servers != []
  }

  /** The keys, sorted by their numbers. */
  ghost predicate IsSorted(order: seq<string>, shards: Shards)
    requires Validated(shards)
  {
    && (forall k :: k in order <==> k in shards)
    && (forall i, j :: 0 <= i < j < |order| ==> order[i] != order[j])
    && (forall i, j :: 0 <= i < j < |order| ==>
          order[i] in shards && order[j] in shards && Number(order[i]) <= Number(order[j]))
  }

  // ---------------------------------------------------------------- addresses

  /** The mirrors of server `target`, numbered from `id` on. */
  function MirrorAddresses(ms: seq<MirrorConfig>, at: nat, target: nat, role: Role, replica: nat, shard: nat,
                           id: nat): seq<Address>
    decreases |ms|
  {
    if ms == [] then []
    else if ms[0].target != target then MirrorAddresses(ms[1..], at + 1, target, role, replica, shard, id)
    else
      [Address(id, ms[0].host, ms[0].port, role, shard, at, replica, [])]
      + MirrorAddresses(ms[1..], at + 1, target, role, replica, shard, id + 1)
  }

  /** The servers of a shard from position `j` on. */
  function ServerAddresses(c: ShardConfig, j: nat, replica: nat, shard: nat, id: nat): (r: seq<Address>)
    requires j <= |c.servers|
    ensures |r| == |c.servers| - j
    decreases |c.servers| - j
  {
    if j == |c.servers| then []
    else
      var server := c.servers[j];
      var mirrors := MirrorAddresses(c.mirrors, 0, j, server.role, replica, shard, id);
      [Address(id + |mirrors|, server.host, server.port, server.role, shard, j, replica, mirrors)]
      + ServerAddresses(c, j + 1, if server.role == Replica then replica + 1 else replica, shard, id + |mirrors| + 1)
  }

  /** The ids of a server and its mirrors, in the order they are given out. */
  function Ids(a: Address): (r: seq<nat>)
    ensures |r| == |a.mirrors| + 1
  {
    seq(|a.mirrors|, i requires 0 <= i < |a.mirrors| => a.mirrors[i].id) + [a.id]
  }

  function ShardIds(s: seq<Address>): seq<nat> {
    if s == [] then [] else Ids(s[0]) + ShardIds(s[1..])
  }

  function PoolIds(p: seq<seq<Address>>): seq<nat> {
    if p == [] then [] else ShardIds(p[0]) + PoolIds(p[1..])
  }

  /** A shard in the order in which it is built. */
  datatype Entry = Entry(number: nat, config: ShardConfig)

  function Entries(order: seq<string>, shards: Shards): (r: seq<Entry>)
    requires Validated(shards) && forall k :: k in order ==> k in shards
    ensures |r| == |order|
  {
    seq(|order|, i requires 0 <= i < |order| => assert order[i] in order; Entry(Number(order[i]), shards[order[i]]))
  }

  function PoolAddresses(es: seq<Entry>, id: nat): (r: seq<seq<Address>>)
    ensures |r| == |es|
    decreases |es|
  {
    if es == [] then []
    else
      var first := ServerAddresses(es[0].config, 0, 0, es[0].number, id);
      [first] + PoolAddresses(es[1..], id + |ShardIds(first)|)
  }

  // ---------------------------------------------------------------- ids

  function Consecutive(id: nat, n: nat): seq<nat> {
    seq(n, i => id + i)
  }

  lemma ConsecutiveJoin(id: nat, m: nat, n: nat)
    ensures Consecutive(id, m) + Consecutive(id + m, n) == Consecutive(id, m + n)
  {
  }

  lemma {:induction false} MirrorIds(ms: seq<MirrorConfig>, at: nat, target: nat, role: Role, replica: nat, shard: nat,
                                     id: nat)
    ensures forall i :: 0 <= i < |MirrorAddresses(ms, at, target, role, replica, shard, id)| ==>
              MirrorAddresses(ms, at, target, role, replica, shard, id)[i].id == id + i
    decreases |ms|
  {
    if ms != [] {
      MirrorIds(ms[1..], at + 1, target, role, replica, shard, if ms[0].target != target then id else id + 1);
    }
  }

  lemma {:induction false} ServerIds(c: ShardConfig, j: nat, replica: nat, shard: nat, id: nat)
    requires j <= |c.servers|
    ensures var r := ShardIds(ServerAddresses(c, j, replica, shard, id)); r == Consecutive(id, |r|)
    decreases |c.servers| - j
  {
    if j < |c.servers| {
      var r := ServerAddresses(c, j, replica, shard, id);
      var a := r[0];
      MirrorIds(c.mirrors, 0, j, a.role, replica, shard, id);
      assert Ids(a) == Consecutive(id, |a.mirrors| + 1);
      var replica' := if a.role == Replica then replica + 1 else replica;
      ServerIds(c, j + 1, replica', shard, id + |a.mirrors| + 1);
      assert r[1..] == ServerAddresses(c, j + 1, replica', shard, id + |a.mirrors| + 1);
      ConsecutiveJoin(id, |a.mirrors| + 1, |ShardIds(r[1..])|);
    }
  }

  lemma {:induction false} PoolIdsConsecutive(es: seq<Entry>, id: nat)
    ensures var r := PoolIds(PoolAddresses(es, id)); r == Consecutive(id, |r|)
    decreases |es|
  {
    if es != [] {
      var p := PoolAddresses(es, id);
      ServerIds(es[0].config, 0, 0, es[0].number, id);
      var n := |ShardIds(p[0])|;
      PoolIdsConsecutive(es[1..], id + n);
      assert p[1..] == PoolAddresses(es[1..], id + n);
      ConsecutiveJoin(id, n, |PoolIds(p[1..])|);
    }
  }

  /** No two addresses of a pool, mirrors included, have the same id. */
  lemma IdsAreDistinct(es: seq<Entry>, id: nat)
    ensures var r := PoolIds(PoolAddresses(es, id));
            forall i, j :: 0 <= i < j < |r| ==> r[i] != r[j]
  {
    PoolIdsConsecutive(es, id);
  }

  // ---------------------------------------------------------------- positions

  /** What is known of the server at position `k` of a shard. */
  ghost predicate BuiltFrom(a: Address, c: ShardConfig, shard: nat, k: nat)
    requires k < |c.servers|
  {
    && a.index == k && a.shard == shard
    && a.host == c.servers[k].host && a.port == c.servers[k].port && a.role == c.servers[k].role
  }

  lemma {:induction false} ServerAt(c: ShardConfig, j: nat, replica: nat, shard: nat, id: nat, k: nat)
    requires j <= k < |c.servers|
    ensures BuiltFrom(ServerAddresses(c, j, replica, shard, id)[k - j], c, shard, k)
    decreases k - j
  {
    if j < k {
      var r := ServerAddresses(c, j, replica, shard, id);
      var replica' := if c.servers[j].role == Replica then replica + 1 else replica;
      ServerAt(c, j + 1, replica', shard, id + |r[0].mirrors| + 1, k);
    }
  }

  /** The address at position `j` of the `s`-th shard stands for its `j`-th server and carries its number. */
  lemma {:induction false} PoolAt(es: seq<Entry>, id: nat, s: nat, j: nat)
    requires s < |es| && j < |es[s].config.servers|
    ensures |PoolAddresses(es, id)[s]| == |es[s].config.servers|
    ensures BuiltFrom(PoolAddresses(es, id)[s][j], es[s].config, es[s].number, j)
    decreases s
  {
    var p := PoolAddresses(es, id);
    if s == 0 {
      ServerAt(es[0].config, 0, 0, es[0].number, id, j);
    } else {
      PoolAt(es[1..], id + |ShardIds(p[0])|, s - 1, j);
    }
  }

  /** The shard numbers are distinct and below their count: 0, 1, 2 and so on, in any order. */
  predicate Numbered(shards: Shards)
    requires Validated(shards)
  {
    && (forall k :: k in shards ==> Number(k) < |shards|)
    && (forall k, l :: k in shards && l in shards && k != l ==> Number(k) != Number(l))
  }

  lemma {:induction false} AtLeastPosition(order: seq<string>, shards: Shards, s: nat)
    requires Validated(shards) && IsSorted(order, shards) && Numbered(shards) && s < |order|
    ensures order[s] in shards && Number(order[s]) >= s
  {
    assert order[s] in order;
    if s > 0 {
      AtLeastPosition(order, shards, s - 1);
      assert Number(order[s - 1]) != Number(order[s]);
    }
  }

  lemma {:induction false} AtMostPosition(order: seq<string>, shards: Shards, s: nat)
    requires Validated(shards) && IsSorted(order, shards) && Numbered(shards) && s < |order| == |shards|
    ensures order[s] in shards && Number(order[s]) <= s
    decreases |order| - s
  {
    assert order[s] in order;
    if s + 1 < |order| {
      AtMostPosition(order, shards, s + 1);
      assert Number(order[s]) != Number(order[s + 1]);
    }
  }

  lemma SortedSize(order: seq<string>, shards: Shards)
    requires Validated(shards) && IsSorted(order, shards)
    ensures |order| == |shards|
  {
    var keys := set k | k in order;
    assert keys == shards.Keys;
    DistinctSize(order);
    assert |shards| == |shards.Keys|;
  }

  lemma {:induction false} DistinctSize(s: seq<string>)
    requires forall i, j :: 0 <= i < j < |s| ==> s[i] != s[j]
    ensures |set k | k in s| == |s|
  {
    if s != [] {
      var rest := s[1..];
      DistinctSize(rest);
      assert s[0] !in rest;
      assert (set k | k in s) == (set k | k in rest) + {s[0]};
    }
  }

  /**
   * Sorting the keys by number puts shard `s` at position `s`, for every `s`, exactly when the keys
   * are the numbers 0 to n - 1, however written; validation alone does not ensure it.
   */
  lemma ShardsInPlace(order: seq<string>, shards: Shards)
    requires Validated(shards) && IsSorted(order, shards)
    ensures (forall s :: 0 <= s < |order| ==> order[s] in shards && Number(order[s]) == s) <==> Numbered(shards)
  {
    SortedSize(order, shards);
    if Numbered(shards) {
      forall s | 0 <= s < |order| ensures order[s] in shards && Number(order[s]) == s {
        AtLeastPosition(order, shards, s);
        AtMostPosition(order, shards, s);
      }
    }
    if forall s :: 0 <= s < |order| ==> order[s] in shards && Number(order[s]) == s {
      forall k | k in shards ensures Number(k) < |shards| {
        assert k in order;
      }
      forall k, l | k in shards && l in shards && k != l ensures Number(k) != Number(l) {
        var i :| 0 <= i < |order| && order[i] == k;
        var j :| 0 <= j < |order| && order[j] == l;
      }
    }
  }

  /** Looking an address up by its own shard number and index finds it. */
  ghost predicate Consistent(p: seq<seq<Address>>) {
    forall s, j :: 0 <= s < |p| && 0 <= j < |p[s]| ==> p[s][j].shard == s && p[s][j].index == j
  }

  /**
   * Every address finds its own connection pool and ban list exactly when the shards are numbered
   * from 0 without gaps or repeats.
   */
  lemma PlacementExact(order: seq<string>, shards: Shards, id: nat)
    requires Validated(shards) && IsSorted(order, shards)
    ensures Consistent(PoolAddresses(Entries(order, shards), id)) <==> Numbered(shards)
  {
    ShardsInPlace(order, shards);
    var es := Entries(order, shards);
    var p := PoolAddresses(es, id);
    forall s | 0 <= s < |order| ensures order[s] in shards {
      assert order[s] in order;
    }
    if Consistent(p) {
      forall s | 0 <= s < |order| ensures Number(order[s]) == s {
        PoolAt(es, id, s, 0);
        assert p[s][0].shard == s;
      }
    }
    if Numbered(shards) {
      forall s, j | 0 <= s < |p| && 0 <= j < |p[s]| ensures p[s][j].shard == s && p[s][j].index == j {
        PoolAt(es, id, s, 0);
        PoolAt(es, id, s, j);
      }
    }
  }

  /** A pool with the one shard "1" passes validation, and its servers are looked for in a second shard. */
  lemma LoneShardOneIsMisplaced(c: ShardConfig, id: nat)
    requires c.servers != []
    ensures var shards := map["1" := c];
            && Validated(shards) && IsSorted(["1"], shards)
            && !Consistent(PoolAddresses(Entries(["1"], shards), id))
  {
    var shards := map["1" := c];
    assert Number("1") == 1;
    PlacementExact(["1"], shards, id);
    assert "1" in shards;
  }

  // ---------------------------------------------------------------- the loops

  /** The inner loop over the mirrors of one server. */
  method BuildMirrors(ms: seq<MirrorConfig>, target: nat, role: Role, replica: nat, shard: nat, firstId: nat)
    returns (mirrors: seq<Address>, addressId: nat)
    ensures mirrors == MirrorAddresses(ms, 0, target, role, replica, shard, firstId)
    ensures addressId == firstId + |mirrors|
  {
    mirrors := [];
    addressId := firstId;
    var i := 0;
    while i < |ms|
      invariant 0 <= i <= |ms|
      invariant addressId == firstId + |mirrors|
      invariant mirrors + MirrorAddresses(ms[i..], i, target, role, replica, shard, addressId) ==
                MirrorAddresses(ms, 0, target, role, replica, shard, firstId)
    {
      assert ms[i..][1..] == ms[i + 1..];
      if ms[i].target == target {
        mirrors := mirrors + [Address(addressId, ms[i].host, ms[i].port, role, shard, i, replica, [])];
        addressId := addressId + 1;
      }
      i := i + 1;
    }
  }

  /** The loop over the servers of one shard; `pools` are the connection pools, named by their address. */
  method BuildShard(c: ShardConfig, shard: nat, firstId: nat)
    returns (servers: seq<Address>, pools: seq<Address>, addressId: nat)
    ensures servers == pools == ServerAddresses(c, 0, 0, shard, firstId)
    ensures addressId == firstId + |ShardIds(servers)|
  {
    servers, pools := [], [];
    addressId := firstId;
    var replicaNumber := 0;
    var j := 0;
    while j < |c.servers|
      invariant 0 <= j <= |c.servers|
      invariant pools == servers && addressId == firstId + |ShardIds(servers)|
      invariant servers + ServerAddresses(c, j, replicaNumber, shard, addressId) ==
                ServerAddresses(c, 0, 0, shard, firstId)
    {
      var server := c.servers[j];
      ghost var before := ServerAddresses(c, j, replicaNumber, shard, addressId);
      var mirrors;
      mirrors, addressId := BuildMirrors(c.mirrors, j, server.role, replicaNumber, shard, addressId);
      var address := Address(addressId, server.host, server.port, server.role, shard, j, replicaNumber, mirrors);
      addressId := addressId + 1;
      if server.role == Replica {
        replicaNumber := replicaNumber + 1;
      }
      ShardIdsSnoc(servers, address);
      ghost var after := ServerAddresses(c, j + 1, replicaNumber, shard, addressId);
      assert before == [address] + after;
      assert servers + before == (servers + [address]) + after;
      pools := pools + [address];
      servers := servers + [address];
      j := j + 1;
    }
  }

  lemma {:induction false} ShardIdsSnoc(s: seq<Address>, a: Address)
    ensures |ShardIds(s + [a])| == |ShardIds(s)| + |a.mirrors| + 1
  {
    if s == [] {
      assert [] + [a] == [a];
      assert [a][1..] == [];
    } else {
      ShardIdsSnoc(s[1..], a);
      assert (s + [a])[1..] == s[1..] + [a];
    }
  }

  /** The loop over the shards: addresses, connection pools and one empty ban list for each. */
  method BuildPool(es: seq<Entry>, firstId: nat)
    returns (addresses: seq<seq<Address>>, databases: seq<seq<Address>>, banlist: seq<Bans>)
    ensures addresses == databases == PoolAddresses(es, firstId)
    ensures |banlist| == |addresses| && forall s :: 0 <= s < |banlist| ==> banlist[s] == map[]
  {
    addresses, databases, banlist := [], [], [];
    var addressId := firstId;
    var i := 0;
    while i < |es|
      invariant 0 <= i <= |es|
      invariant addresses == databases && |banlist| == |addresses| == i
      invariant forall s :: 0 <= s < |banlist| ==> banlist[s] == map[]
      invariant addresses + PoolAddresses(es[i..], addressId) == PoolAddresses(es, firstId)
    {
      assert es[i..][1..] == es[i + 1..];
      var servers, pools;
      servers, pools, addressId := BuildShard(es[i].config, es[i].number, addressId);
      databases := databases + [pools];
      addresses := addresses + [servers];
      banlist := banlist + [map[]];
      i := i + 1;
    }
  }

  /** The keys can be sorted: each is read as an `i64` for that, and validation allows larger ones. */
  predicate Sortable(shards: Shards)
    requires Validated(shards)
  {
    forall k :: k in shards ==> Number(k) <= I64_MAX
  }

  datatype Built = Built(addresses: seq<seq<Address>>, databases: seq<seq<Address>>, banlist: seq<Bans>)

  /** `from_config` for one pool; `order` is what sorting the keys gives. `None` where the source panics. */
  method FromConfig(order: seq<string>, shards: Shards, firstId: nat) returns (r: Option<Built>)
    requires Validated(shards) && (Sortable(shards) ==> IsSorted(order, shards))
    ensures r.Some? <==> Sortable(shards)
    ensures r.Some? ==>
              && r.value.addresses == r.value.databases == PoolAddresses(Entries(order, shards), firstId)
              && |r.value.banlist| == |r.value.addresses| == |order|
              && (Consistent(r.value.addresses) <==> Numbered(shards))
              && (Numbered(shards) ==>
                    forall s :: 0 <= s < |r.value.addresses| ==> Distinct(r.value.addresses[s]))
  {
    if !Sortable(shards) {
      return None;
    }
    var addresses, databases, banlist := BuildPool(Entries(order, shards), firstId);
    PlacementExact(order, shards, firstId);
    r := Some(Built(addresses, databases, banlist));
  }
}
