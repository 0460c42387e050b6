/**
  Several cache nodes behind one router (cluster/cluster.go, cluster/node.go) as a value: which node
  a key goes to, what the client operations do, the migration of a hot key, and the override that
  sends its clients after it.
 */
module ClusterSpec {
  import opened Prelude
  import opened PolicyHistory
  import opened CacheSpec
  import R = Ring

  /** What does not change: node IDs, the ring, and each node's configuration and world. */
  datatype Topology = Topology(ids: seq<int>, ring: R.Points, hash: R.HashFn, cfgs: seq<Config>, worlds: seq<World>) {
    ghost predicate Valid() {
      && |ids| == |cfgs| == |worlds|
      && (forall i, j :: 0 <= i < j < |ids| ==> ids[i] != ids[j])
      && (forall p :: p in ring ==> p.node < |ids|)
    }
  }

  datatype Cluster = Cluster(nodes: seq<St>, overrides: map<Key, int>)

  // ----- routing

  function FindId(ids: seq<int>, id: int): (r: Option<nat>)
    ensures r.Some? ==> r.value < |ids| && ids[r.value] == id
    ensures r.None? ==> id !in ids
  {
    if ids == [] then None
    else if ids[0] == id then Some(0)
    else match FindId(ids[1..], id) case None => None case Some(i) => Some(i + 1)
  }

  /** getNodeForKey: an override naming a node of the cluster, else the ring. */
  function Route(top: Topology, overrides: map<Key, int>, k: Key): Option<nat> {
    if k in overrides && FindId(top.ids, overrides[k]).Some? then FindId(top.ids, overrides[k])
    else if top.ring == [] then None
    else Some(R.Successor(top.ring, top.hash(k)).node)
  }

  /** Position n holds the first node with this ID. */
  ghost predicate FirstWith(ids: seq<int>, id: int, n: nat) {
    n < |ids| && ids[n] == id && forall m :: 0 <= m < n ==> ids[m] != id
  }

  /** Where the clients of k are sent, said without the search: to the node its override names, if there
      is one; else, unless the ring is empty, to the owner of the point nearest clockwise to its hash. */
  ghost predicate SentTo(top: Topology, overrides: map<Key, int>, k: Key, to: Option<nat>) {
    if k in overrides && overrides[k] in top.ids then to.Some? && FirstWith(top.ids, overrides[k], to.value)
    else if top.ring == [] then to.None?
    else to.Some? && exists n: nat :: R.Owns(top.ring, top.hash(k), n) && top.ring[n].node == to.value
  }

  lemma FindIdFirst(ids: seq<int>, id: int)
    ensures match FindId(ids, id) case Some(n) => FirstWith(ids, id, n) case None => id !in ids
  {
    if FindId(ids, id).Some? && ids[0] != id {
      FindIdFirst(ids[1..], id);
      assert ids == [ids[0]] + ids[1..];
    }
  }

  /** That is where they are sent, and nowhere else. */
  lemma RouteIsSentTo(top: Topology, overrides: map<Key, int>, k: Key, to: Option<nat>)
    requires R.Sorted(top.ring)
    ensures SentTo(top, overrides, k, to) <==> to == Route(top, overrides, k)
  {
    if k in overrides && overrides[k] in top.ids {
      FindIdFirst(top.ids, overrides[k]);
    } else if top.ring != [] {
      var n := R.SuccessorNearest(top.ring, top.hash(k));
      forall m | R.Owns(top.ring, top.hash(k), m) ensures m == n {
        R.OwnerUnique(top.ring, top.hash(k), m, n);
      }
    }
  }

  /** top' is top with one more node, at the end of the list. */
  ghost predicate Joined(top: Topology, top': Topology, id: int, replicas: nat) {
    && top'.ids == top.ids + [id] && top'.hash == top.hash
    && R.IsRing(top.ring, top.hash, top.ids, replicas) && R.IsRing(top'.ring, top'.hash, top'.ids, replicas)
    && R.NoSharing(top'.ring)
  }

  /** A key that no override of a node concerns is where the ring puts it. */
  lemma RingRoutes(top: Topology, overrides: map<Key, int>, k: Key)
    requires top.ring != [] && (k !in overrides || overrides[k] !in top.ids)
    ensures Route(top, overrides, k) == Some(R.Successor(top.ring, top.hash(k)).node)
  {
    if k in overrides {
      FindIdFirst(top.ids, overrides[k]);
    }
  }

  /** When a node joins, a key whose clients an override sends to an old node keeps its node. */
  lemma JoiningKeepsOverrides(top: Topology, top': Topology, overrides: map<Key, int>, id: int, k: Key)
    requires top'.ids == top.ids + [id] && k in overrides && overrides[k] in top.ids
    ensures Route(top', overrides, k) == Route(top, overrides, k)
  {
    FindIdFirst(top.ids, overrides[k]);
    FindIdFirst(top'.ids, overrides[k]);
    var m, n := FindId(top.ids, overrides[k]).value, FindId(top'.ids, overrides[k]).value;
    assert top'.ids[m] == overrides[k] && n <= m;
    assert top.ids[n] == overrides[k];
  }

  /** Any other key without an override keeps its node too, unless the ring gives it to the new one, which
      it does exactly when the key is nearer to one of its points than to every old one. */
  lemma JoiningMovesFew(top: Topology, top': Topology, overrides: map<Key, int>, id: int, replicas: nat, k: Key)
    requires Joined(top, top', id, replicas) && top.ring != [] && top'.ring != []
    requires k !in overrides || overrides[k] !in top'.ids
    ensures Route(top', overrides, k) == Route(top, overrides, k) || Route(top', overrides, k) == Some(|top.ids|)
    ensures Route(top', overrides, k) == Some(|top.ids|) <==> R.Gains(top.ring, top'.ring, |top.ids|, top.hash(k))
  {
    RingRoutes(top, overrides, k);
    RingRoutes(top', overrides, k);
    R.MinimalDisruption(top.hash, top.ids, id, replicas, top.ring, top'.ring, top.hash(k));
  }

  /** Nodes 1 and 2, with one point each, at 10 and at 20: a key hashed to 15 goes to the second node, one
      hashed to 25 or to 10 to the first. An override names a node by its ID, and one naming no node does
      nothing. */
  lemma TwoPoints(top: Topology, h: R.Hash)
    requires top.ids == [1, 2] && top.ring == [R.VirtualNode(10, 0), R.VirtualNode(20, 1)] && top.hash == (k => h)
    ensures h == 15 ==> Route(top, map[], "k") == Some(1)
    ensures h == 25 || h == 10 ==> Route(top, map[], "k") == Some(0)
    ensures Route(top, map["k" := 2], "k") == Some(1) && Route(top, map["k" := 3], "k") == Route(top, map[], "k")
  {
    var one := [R.VirtualNode(20, 1)];
    assert top.ring[1..] == one && one[1..] == [];
    assert R.FirstAtLeast(one, h) == if h <= 20 then 0 else 1 + R.FirstAtLeast(one[1..], h);
    assert top.ids[1..] == [2] && [2][1..] == [];
  }

  lemma RouteInRange(top: Topology, overrides: map<Key, int>, k: Key)
    requires top.Valid()
    ensures Route(top, overrides, k).Some? ==> Route(top, overrides, k).value < |top.ids|
  {
    if top.ring != [] {
      assert R.Successor(top.ring, top.hash(k)) in top.ring;
    }
  }

  // ----- operations

  ghost predicate WellFormed(top: Topology, c: Cluster) {
    top.Valid() && |c.nodes| == |top.ids|
  }

  function Put(c: Cluster, i: nat, s: St): Cluster
    requires i < |c.nodes|
  {
    c.(nodes := c.nodes[i := s])
  }

  /** The first key, in the order the map is walked, with the highest frequency; the scan starts
      below every frequency. */
  function Hottest(items: Items, order: seq<Key>): (r: Option<Key>)
    requires forall k :: k in order ==> k in items
    ensures if order == [] then r.None? else r.Some? && r.value in order
    decreases |order|
  {
    if order == [] then None
    else
      var n := |order| - 1;
      match Hottest(items, order[..n])
      case None => Some(order[n])
      case Some(k) => if items[order[n]].frequency > items[k].frequency then Some(order[n]) else Some(k)
  }

  /** The key a migration picks is the first of those no other key is hotter than. */
  ghost predicate IsHottest(items: Items, order: seq<Key>, n: nat)
    requires n < |order| && forall k :: k in order ==> k in items
  {
    && (forall m :: 0 <= m < |order| ==> items[order[m]].frequency <= items[order[n]].frequency)
    && (forall m :: 0 <= m < n ==> items[order[m]].frequency < items[order[n]].frequency)
  }

  lemma HottestSnoc(items: Items, init: seq<Key>, k: Key, n: nat)
    requires n < |init| && k in items && (forall j :: j in init ==> j in items) && IsHottest(items, init, n)
    ensures IsHottest(items, init + [k], if items[k].frequency > items[init[n]].frequency then |init| else n)
  {
    assert forall m :: 0 <= m < |init| ==> (init + [k])[m] == init[m];
  }

  lemma {:induction false} HottestIs(items: Items, order: seq<Key>) returns (n: nat)
    requires order != [] && forall k :: k in order ==> k in items
    ensures n < |order| && IsHottest(items, order, n) && Hottest(items, order) == Some(order[n])
    decreases |order|
  {
    var init := order[..|order| - 1];
    if init == [] {
      n := 0;
    } else {
      n := HottestIs(items, init);
      HottestSnoc(items, init, order[|init|], n);
      assert order == init + [order[|init|]];
      if items[order[|init|]].frequency > items[init[n]].frequency {
        n := |init|;
      }
    }
  }

  // ----- migration

  /** MigrateHotKey once it has picked its key: the source lets go of the key, then the target stores
      the value. Yields the two nodes afterwards, and what storing led to, if it came to that. */
  ghost function Handover(cfg: Config, w: World, s: St, cfg': Config, w': World, s': St, hot: Key)
    : (St, St, Option<Outcome>)
    requires hot in s.items
  {
    var (gone, deleted) := CacheSpec.Delete(cfg, w, Look(s, hot), hot);
    if deleted != Done then (gone, s', None)
    else
      var (held, stored) := CacheSpec.Set(cfg', w', s', hot, s.items[hot].value, 0);
      (gone, held, Some(stored))
  }

  /** MigrateHotKey: the two nodes afterwards, and the key it reports to have moved. */
  ghost function HandHottest(cfg: Config, w: World, s: St, cfg': Config, w': World, s': St, order: seq<Key>)
    : (St, St, Option<Key>)
    requires forall k :: k in order ==> k in s.items
  {
    match Hottest(s.items, order)
    case None => (s, s', None)
    case Some(hot) =>
      if hot == "" then (s, s', None)
      else
        var (gone, held, stored) := Handover(cfg, w, s, cfg', w', s', hot);
        (gone, held, if stored == Some(Done) then Some(hot) else None)
  }

  /** Two nodes of the cluster, and an order in which the source's keys may be walked. */
  ghost predicate Between(top: Topology, c: Cluster, src: nat, dst: nat, order: seq<Key>) {
    && WellFormed(top, c) && src < |c.nodes| && dst < |c.nodes| && src != dst
    && forall k :: k in order <==> k in c.nodes[src].items
  }

  ghost function Hand(top: Topology, c: Cluster, src: nat, dst: nat, order: seq<Key>): (Cluster, Option<Key>)
    requires Between(top, c, src, dst, order)
  {
    var (gone, held, moved) := HandHottest(top.cfgs[src], top.worlds[src], c.nodes[src],
                                           top.cfgs[dst], top.worlds[dst], c.nodes[dst], order);
    (Put(Put(c, src, gone), dst, held), moved)
  }

  /** SetKeyOverride. */
  function Reroute(c: Cluster, k: Key, id: int): Cluster {
    c.(overrides := c.overrides[k := id])
  }

  /** A migration that nothing interrupts: when it reports success, the override follows. */
  ghost function Migrate(top: Topology, c: Cluster, src: nat, dst: nat, order: seq<Key>): Cluster
    requires Between(top, c, src, dst, order)
  {
    var (c', moved) := Hand(top, c, src, dst, order);
    match moved
    case None => c'
    case Some(k) => Reroute(c', k, top.ids[dst])
  }

  // ----- clients and background work

  datatype ClientOp =
    | Set(key: Key, value: Bytes, ttl: int)
    | Get(key: Key)
    | Delete(key: Key)
  {
    function AtNode(): Op {
      match this
      case Set(k, v, ttl) => SetOp(k, v, ttl)
      case Get(k) => GetOp(k)
      case Delete(k) => DeleteOp(k)
    }
  }

  ghost function Serve(top: Topology, c: Cluster, op: ClientOp): Cluster
    requires WellFormed(top, c)
  {
    RouteInRange(top, c.overrides, op.key);
    match Route(top, c.overrides, op.key)
    case None => c
    case Some(i) => Put(c, i, Do(top.cfgs[i], top.worlds[i], c.nodes[i], op.AtNode()))
  }

  /** What a cluster Get returns: the routed node's item, if there is one. */
  ghost function Lookup(top: Topology, c: Cluster, k: Key): Option<Bytes>
    requires WellFormed(top, c)
  {
    RouteInRange(top, c.overrides, k);
    match Route(top, c.overrides, k)
    case None => None
    case Some(i) => if k in c.nodes[i].items then Some(c.nodes[i].items[k].value) else None
  }
}
