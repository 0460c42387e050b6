/**
  cluster/cluster.go and cluster/node.go, in place: the router with its ring and overrides, and the
  migration of a hot key from one node's cache object to another's.
 */
module ClusterNode {
  import opened Prelude
  import opened PolicyHistory
  import opened S = CacheSpec
  import opened CacheNode
  import C = ClusterSpec
  import R = Ring

  /** A cache with the objects it is made of. */
  datatype Bounded = Bounded(cache: Cache, footprint: set<object>)

  /** A cache none of whose objects changed is in the state it was in. */
  twostate lemma Untouched(b: Bounded)
    requires old(b.cache.Valid()) && b.footprint == old(b.cache.Repr) && unchanged(b.footprint)
    ensures b.cache.Valid() && b.cache.Repr == b.footprint
    ensures b.cache.State() == old(b.cache.State()) && b.cache.Config() == old(b.cache.Config())
  {
  }

  ghost predicate Apart(feet: seq<set<object>>) {
    forall i, j :: 0 <= i < j < |feet| ==> feet[i] !! feet[j]
  }

  lemma ApartAt(feet: seq<set<object>>, i: nat, j: nat)
    requires Apart(feet) && i < |feet| && j < |feet| && i != j
    ensures feet[i] !! feet[j]
  {
    assert feet[if i < j then i else j] !! feet[if i < j then j else i];
  }

  lemma ApartFrom(feet: seq<set<object>>, i: nat, k: nat)
    requires Apart(feet) && i < |feet| && k < |feet| && i != k
    ensures feet[i] !! feet[k]
    ensures forall j :: 0 <= j < |feet| && j != i && j != k ==> feet[j] !! feet[i] && feet[j] !! feet[k]
  {
    ApartAt(feet, i, k);
    forall j | 0 <= j < |feet| && j != i && j != k
      ensures feet[j] !! feet[i] && feet[j] !! feet[k]
    {
      ApartAt(feet, j, i);
      ApartAt(feet, j, k);
    }
  }

  lemma StillApart(feet: seq<set<object>>, i: nat, footprint: set<object>)
    requires Apart(feet) && i < |feet|
    requires forall j :: 0 <= j < |feet| && j != i ==> feet[j] !! footprint
    ensures Apart(feet[i := footprint])
  {
  }

  class Node {
    const ID: int
    const cache: Cache

    constructor (id: int, cache: Cache)
      ensures ID == id && this.cache == cache
    {
      ID, this.cache := id, cache;
    }

    /** The source's half: read the value and let go of the key. */
    method Release(key: Key) returns (value: Bytes, outcome: Outcome)
      requires cache.Valid() && key in cache.items
      modifies cache.Repr
      ensures cache.Valid() && fresh(cache.Repr - old(cache.Repr))
      ensures cache.Config() == old(cache.Config())
      ensures value == old(cache.items)[key].value
      ensures (cache.State(), outcome) == Delete(old(cache.Config()), cache.world, Look(old(cache.State()), key), key)
    {
      var read := cache.Get(key);
      value := read.value;
      outcome := cache.Delete(key);
    }

    /** Takes one key from this node to the target. On a failure part of the way the rest is not undone. */
    method Move(target: Node, key: Key) returns (stored: Option<Outcome>)
      requires cache.Valid() && target.cache.Valid() && key in cache.items
      requires cache.Repr !! target.cache.Repr
      modifies cache.Repr, target.cache.Repr
      ensures cache.Valid() && fresh(cache.Repr - old(cache.Repr))
      ensures target.cache.Valid() && fresh(target.cache.Repr - old(target.cache.Repr))
      ensures cache.Repr !! target.cache.Repr
      ensures cache.Config() == old(cache.Config()) && target.cache.Config() == old(target.cache.Config())
      ensures (cache.State(), target.cache.State(), stored) ==
              C.Handover(old(cache.Config()), cache.world, old(cache.State()),
                         old(target.cache.Config()), target.cache.world, old(target.cache.State()), key)
    {
      ghost var mine, theirs := cache.Repr, target.cache.Repr;
      var value, deleted := Release(key);
      Untouched(Bounded(target.cache, theirs));
      if deleted != Done {
        return None;
      }
      mine := cache.Repr;
      label released:
      var outcome := target.cache.SetWithTTL(key, value, 0);
      Untouched@released(Bounded(cache, mine));
      return Some(outcome);
    }

    /** Reports the key it moved, and the order in which it walked the keys. */
    method MigrateHotKey(target: Node) returns (moved: Option<Key>, order: seq<Key>)
      requires cache.Valid() && target.cache.Valid()
      requires cache.Repr !! target.cache.Repr
      modifies cache.Repr, target.cache.Repr
      ensures cache.Valid() && fresh(cache.Repr - old(cache.Repr))
      ensures target.cache.Valid() && fresh(target.cache.Repr - old(target.cache.Repr))
      ensures cache.Repr !! target.cache.Repr
      ensures cache.Config() == old(cache.Config()) && target.cache.Config() == old(target.cache.Config())
      ensures forall k :: k in order <==> k in old(cache.items)
      ensures (cache.State(), target.cache.State(), moved) ==
              C.HandHottest(old(cache.Config()), cache.world, old(cache.State()),
                            old(target.cache.Config()), target.cache.world, old(target.cache.State()), order)
    {
      var items := cache.items;
      order := [];
      var todo := items.Keys;
      while todo != {}
        invariant todo <= items.Keys && forall k :: k in order <==> k in items.Keys - todo
        decreases todo
      {
        var k :| k in todo;
        order, todo := order + [k], todo - {k};
      }
      assert forall k :: k in order <==> k in items;
      var hottest: Option<Key>, maxFreq: int := None, -1;
      for n := 0 to |order|
        invariant hottest == C.Hottest(items, order[..n])
        invariant if hottest.None? then maxFreq == -1 else maxFreq == items[hottest.value].frequency
      {
        assert order[..n + 1][..n] == order[..n];
        var f := items[order[n]].frequency;
        if f > maxFreq {
          maxFreq, hottest := f, Some(order[n]);
        }
      }
      assert order[..|order|] == order;
      if hottest.None? || hottest.value == "" {
        return None, order;
      }
      var stored := Move(target, hottest.value);
      moved := if stored == Some(Done) then hottest else None;
    }
  }

  /** The nodes, the ring and the overrides. The ghost fields say, node by node, which objects its
      cache is made of, what state it is in and how it is configured. */
  class Cluster {
    const nodes: seq<Node>
    const hash: R.HashFn
    const VirtualNodes: R.Points
    var keyOverrides: map<Key, int>
    ghost const cfgs: seq<Config>
    ghost var feet: seq<set<object>>
    ghost var states: seq<St>

    ghost function Ids(): seq<int> {
      seq(|nodes|, i requires 0 <= i < |nodes| => nodes[i].ID)
    }

    ghost function Worlds(): seq<World> {
      seq(|nodes|, i requires 0 <= i < |nodes| => nodes[i].cache.world)
    }

    ghost function Topology(): C.Topology {
      C.Topology(Ids(), VirtualNodes, hash, cfgs, Worlds())
    }

    ghost function State(): C.Cluster
      reads this
    {
      C.Cluster(states, keyOverrides)
    }

    ghost function Objects(): set<object>
      reads this
    {
      set i, o | 0 <= i < |feet| && o in feet[i] :: o
    }

    ghost predicate Holds(i: nat, footprint: set<object>, s: St, cfg: Config)
      requires i < |nodes|
      reads *
    {
      && nodes[i].cache.Valid() && nodes[i].cache.Repr == footprint && this !in footprint
      && nodes[i].cache.State() == s && nodes[i].cache.Config() == cfg
    }

    ghost predicate Valid()
      reads *
    {
      && |feet| == |states| == |cfgs| == |nodes|
      && (forall i :: 0 <= i < |nodes| ==> Holds(i, feet[i], states[i], cfgs[i]))
      && Apart(feet)
      && R.Sorted(VirtualNodes) && (forall p :: p in VirtualNodes ==> p.node < |nodes|)
    }

    constructor (nodes: seq<Node>, hash: R.HashFn, replicas: nat)
      requires forall i :: 0 <= i < |nodes| ==> nodes[i].cache.Valid()
      requires forall i, j :: 0 <= i < j < |nodes| ==> nodes[i].cache.Repr !! nodes[j].cache.Repr
      ensures this.nodes == nodes && this.hash == hash && keyOverrides == map[]
      ensures R.IsRing(VirtualNodes, hash, Ids(), replicas)
      ensures Valid() && fresh(this)
      ensures forall i :: 0 <= i < |nodes| ==> states[i] == old(nodes[i].cache.State())
    {
      var ids := [];
      for i := 0 to |nodes|
        invariant |ids| == i && forall j :: 0 <= j < i ==> ids[j] == nodes[j].ID
      {
        ids := ids + [nodes[i].ID];
      }
      var ring := R.BuildRing(hash, ids, replicas);
      R.RingNodes(ring, hash, ids, replicas);
      this.nodes, this.hash, VirtualNodes, keyOverrides := nodes, hash, ring, map[];
      feet := seq(|nodes|, i requires 0 <= i < |nodes| => old(nodes[i].cache.Repr));
      states := seq(|nodes|, i requires 0 <= i < |nodes| => old(nodes[i].cache.State()));
      cfgs := seq(|nodes|, i requires 0 <= i < |nodes| => old(nodes[i].cache.Config()));
      new;
      assert Ids() == ids;
      forall i | 0 <= i < |nodes|
        ensures Holds(i, feet[i], states[i], cfgs[i])
      {
        Untouched(Bounded(nodes[i].cache, feet[i]));
      }
    }

    // ----- clients

    /** Brings the ghost fields up to date with what the nodes have become. */
    ghost method Settle(feet': seq<set<object>>, states': seq<St>)
      requires |feet'| == |states'| == |cfgs| == |nodes|
      requires forall i :: 0 <= i < |nodes| ==> Holds(i, feet'[i], states'[i], cfgs[i])
      requires Apart(feet')
      requires R.Sorted(VirtualNodes) && (forall p :: p in VirtualNodes ==> p.node < |nodes|)
      modifies `feet, `states
      ensures Valid() && feet == feet' && states == states'
    {
      feet, states := feet', states';
      forall i | 0 <= i < |nodes|
        ensures Holds(i, feet[i], states[i], cfgs[i])
      {
        assert old(Holds(i, feet'[i], states'[i], cfgs[i]));
        Untouched(Bounded(nodes[i].cache, feet[i]));
      }
    }

    ghost method SettleOne(i: nat)
      requires i < |nodes| == |feet| == |states| == |cfgs|
      requires forall j :: 0 <= j < |nodes| && j != i ==> Holds(j, feet[j], states[j], cfgs[j])
      requires Holds(i, nodes[i].cache.Repr, nodes[i].cache.State(), cfgs[i])
      requires Apart(feet) && forall j :: 0 <= j < |nodes| && j != i ==> feet[j] !! nodes[i].cache.Repr
      requires R.Sorted(VirtualNodes) && forall p :: p in VirtualNodes ==> p.node < |nodes|
      modifies `feet, `states
      ensures Valid() && feet == old(feet)[i := old(nodes[i].cache.Repr)]
      ensures states == old(states)[i := old(nodes[i].cache.State())]
    {
      StillApart(feet, i, nodes[i].cache.Repr);
      Settle(feet[i := nodes[i].cache.Repr], states[i := nodes[i].cache.State()]);
    }

    ghost method SettleBoth(i: nat, k: nat)
      requires i < |nodes| == |feet| == |states| == |cfgs| && k < |nodes| && i != k
      requires forall j :: 0 <= j < |nodes| && j != i && j != k ==> Holds(j, feet[j], states[j], cfgs[j])
      requires Holds(i, nodes[i].cache.Repr, nodes[i].cache.State(), cfgs[i])
      requires Holds(k, nodes[k].cache.Repr, nodes[k].cache.State(), cfgs[k])
      requires Apart(feet) && nodes[i].cache.Repr !! nodes[k].cache.Repr
      requires forall j :: 0 <= j < |nodes| && j != i ==> feet[j] !! nodes[i].cache.Repr
      requires forall j :: 0 <= j < |nodes| && j != k ==> feet[j] !! nodes[k].cache.Repr
      requires R.Sorted(VirtualNodes) && forall p :: p in VirtualNodes ==> p.node < |nodes|
      modifies `feet, `states
      ensures Valid() && feet == old(feet)[i := old(nodes[i].cache.Repr)][k := old(nodes[k].cache.Repr)]
      ensures states == old(states)[i := old(nodes[i].cache.State())][k := old(nodes[k].cache.State())]
    {
      ghost var mine, theirs := nodes[i].cache.Repr, nodes[k].cache.Repr;
      StillApart(feet, i, mine);
      StillApart(feet[i := mine], k, theirs);
      Settle(feet[i := mine][k := theirs], states[i := nodes[i].cache.State()][k := nodes[k].cache.State()]);
    }

    method SetOn(i: nat, key: Key, value: Bytes, ttl: int) returns (outcome: Outcome)
      requires Valid() && i < |nodes|
      modifies `feet, `states, feet[i]
      ensures Valid() && fresh(feet[i] - old(feet[i])) && feet == old(feet)[i := feet[i]]
      ensures var (s, o) := S.Set(cfgs[i], nodes[i].cache.world, old(states[i]), key, value, ttl);
              states == old(states)[i := s] && outcome == o
    {
      outcome := nodes[i].cache.SetWithTTL(key, value, ttl);
      OthersHold(Rest(this, {i}));
      SettleOne(i);
    }

    method GetOn(i: nat, key: Key) returns (r: Option<Bytes>)
      requires Valid() && i < |nodes|
      modifies `feet, `states, feet[i]
      ensures Valid() && fresh(feet[i] - old(feet[i])) && feet == old(feet)[i := feet[i]]
      ensures states == old(states)[i := Look(old(states[i]), key)]
      ensures r == if key in old(states[i].items) then Some(old(states[i].items)[key].value) else None
    {
      r := nodes[i].cache.Get(key);
      OthersHold(Rest(this, {i}));
      SettleOne(i);
    }

    method DeleteOn(i: nat, key: Key) returns (outcome: Outcome)
      requires Valid() && i < |nodes|
      modifies `feet, `states, feet[i]
      ensures Valid() && fresh(feet[i] - old(feet[i])) && feet == old(feet)[i := feet[i]]
      ensures var (s, o) := S.Delete(cfgs[i], nodes[i].cache.world, old(states[i]), key);
              states == old(states)[i := s] && outcome == o
    {
      outcome := nodes[i].cache.Delete(key);
      OthersHold(Rest(this, {i}));
      SettleOne(i);
    }

    method SetKeyOverride(key: Key, nodeId: int)
      requires Valid()
      modifies `keyOverrides
      ensures Valid() && State() == C.Reroute(old(State()), key, nodeId)
    {
      keyOverrides := keyOverrides[key := nodeId];
      OthersHold(Rest(this, {}));
    }

    method FindNode(id: int) returns (i: Option<nat>)
      ensures i == C.FindId(Ids(), id)
    {
      var n := 0;
      while n < |nodes|
        invariant n <= |nodes| && id !in Ids()[..n]
      {
        if nodes[n].ID == id {
          FoundAt(Ids(), id, n);
          return Some(n);
        }
        n := n + 1;
      }
      assert Ids()[..n] == Ids();
      return None;
    }

    method Routed(key: Key) returns (i: Option<nat>)
      requires R.Sorted(VirtualNodes)
      ensures i == C.Route(Topology(), keyOverrides, key)
    {
      if key in keyOverrides {
        i := FindNode(keyOverrides[key]);
        if i.Some? {
          return;
        }
      }
      if VirtualNodes == [] {
        return None;
      }
      var idx := R.Search(VirtualNodes, hash(key));
      if idx == |VirtualNodes| {
        idx := 0;
      }
      return Some(VirtualNodes[idx].node);
    }

    /** The position of the node a key goes to. */
    method GetNodeForKey(key: Key) returns (i: Option<nat>)
      requires Valid()
      ensures Valid()
      ensures i == C.Route(Topology(), keyOverrides, key)
      ensures if exists n :: 0 <= n < |nodes| && key in keyOverrides && nodes[n].ID == keyOverrides[key]
              then
                && i.Some? && i.value < |nodes| && nodes[i.value].ID == keyOverrides[key]
                && forall n :: 0 <= n < i.value ==> nodes[n].ID != keyOverrides[key]
              else if VirtualNodes == [] then i.None?
              else i.Some? && exists n: nat :: R.Owns(VirtualNodes, hash(key), n) && VirtualNodes[n].node == i.value
    {
      i := Routed(key);
      C.RouteIsSentTo(Topology(), keyOverrides, key, i);
      assert forall n :: 0 <= n < |nodes| ==> Ids()[n] == nodes[n].ID;
      OthersHold(Rest(this, {}));
    }

    // ----- clients

    method Set(key: Key, value: Bytes, ttl: int) returns (outcome: Option<Outcome>)
      requires Valid() && Topology().Valid()
      modifies `feet, `states, Objects()
      ensures Valid() && forall i :: 0 <= i < |feet| ==> fresh(feet[i] - old(feet[i]))
      ensures State() == C.Serve(Topology(), old(State()), C.Set(key, value, ttl))
      ensures outcome == match C.Route(Topology(), old(keyOverrides), key)
                         case None => None
                         case Some(i) => Some(S.Set(cfgs[i], Worlds()[i], old(states)[i], key, value, ttl).1)
    {
      var i := GetNodeForKey(key);
      if i.None? {
        return None;
      }
      var o := SetOn(i.value, key, value, ttl);
      outcome := Some(o);
    }

    method Get(key: Key) returns (r: Option<Bytes>)
      requires Valid() && Topology().Valid()
      modifies `feet, `states, Objects()
      ensures Valid() && forall i :: 0 <= i < |feet| ==> fresh(feet[i] - old(feet[i]))
      ensures State() == C.Serve(Topology(), old(State()), C.Get(key))
      ensures r == C.Lookup(Topology(), old(State()), key)
    {
      var i := GetNodeForKey(key);
      if i.None? {
        return None;
      }
      r := GetOn(i.value, key);
    }

    method Delete(key: Key) returns (outcome: Option<Outcome>)
      requires Valid() && Topology().Valid()
      modifies `feet, `states, Objects()
      ensures Valid() && forall i :: 0 <= i < |feet| ==> fresh(feet[i] - old(feet[i]))
      ensures State() == C.Serve(Topology(), old(State()), C.Delete(key))
      ensures outcome == match C.Route(Topology(), old(keyOverrides), key)
                         case None => None
                         case Some(i) => Some(S.Delete(cfgs[i], Worlds()[i], old(states)[i], key).1)
    {
      var i := GetNodeForKey(key);
      if i.None? {
        return None;
      }
      var o := DeleteOn(i.value, key);
      outcome := Some(o);
    }

    // ----- moving load

    /** The migration itself, before the ghost fields are brought up to date. */
    method HandObjects(src: nat, dst: nat) returns (moved: Option<Key>, order: seq<Key>)
      requires Valid() && src < |nodes| && dst < |nodes| && src != dst
      modifies feet[src], feet[dst]
      ensures forall j :: 0 <= j < |nodes| && j != src && j != dst ==> Holds(j, feet[j], states[j], cfgs[j])
      ensures Holds(src, nodes[src].cache.Repr, nodes[src].cache.State(), cfgs[src])
      ensures Holds(dst, nodes[dst].cache.Repr, nodes[dst].cache.State(), cfgs[dst])
      ensures nodes[src].cache.Repr !! nodes[dst].cache.Repr
      ensures fresh(nodes[src].cache.Repr - feet[src]) && fresh(nodes[dst].cache.Repr - feet[dst])
      ensures forall k :: k in order <==> k in states[src].items
      ensures (nodes[src].cache.State(), nodes[dst].cache.State(), moved) ==
              C.HandHottest(cfgs[src], nodes[src].cache.world, states[src],
                            cfgs[dst], nodes[dst].cache.world, states[dst], order)
    {
      ApartFrom(feet, src, dst);
      moved, order := nodes[src].MigrateHotKey(nodes[dst]);
      OthersHold(Rest(this, {src, dst}));
    }

    method HandOn(src: nat, dst: nat) returns (moved: Option<Key>, order: seq<Key>)
      requires Valid() && src < |nodes| && dst < |nodes| && src != dst
      modifies `feet, `states, feet[src], feet[dst]
      ensures Valid() && feet == old(feet)[src := feet[src]][dst := feet[dst]]
      ensures fresh(feet[src] - old(feet[src])) && fresh(feet[dst] - old(feet[dst]))
      ensures forall k :: k in order <==> k in old(states)[src].items
      ensures var (gone, held, m) := C.HandHottest(cfgs[src], nodes[src].cache.world, old(states)[src],
                                                   cfgs[dst], nodes[dst].cache.world, old(states)[dst], order);
              states == old(states)[src := gone][dst := held] && moved == m
    {
      moved, order := HandObjects(src, dst);
      SettleBoth(src, dst);
    }

    method MigrateBetween(src: nat, dst: nat) returns (moved: Option<Key>, order: seq<Key>)
      requires Valid() && Topology().Valid() && src < |nodes| && dst < |nodes| && src != dst
      modifies `feet, `states, feet[src], feet[dst]
      ensures Valid() && feet == old(feet)[src := feet[src]][dst := feet[dst]]
      ensures fresh(feet[src] - old(feet[src])) && fresh(feet[dst] - old(feet[dst]))
      ensures C.Between(Topology(), old(State()), src, dst, order)
      ensures (State(), moved) == C.Hand(Topology(), old(State()), src, dst, order)
    {
      moved, order := HandOn(src, dst);
    }

    /** What main_cluster.go does with an overfull node: migrate its hottest key and, if that is
        reported to have worked, send the key's clients after it. */
    method Rebalance(src: nat, dst: nat) returns (moved: Option<Key>, order: seq<Key>)
      requires Valid() && Topology().Valid() && src < |nodes| && dst < |nodes| && src != dst
      modifies this, feet[src], feet[dst]
      ensures Valid() && feet == old(feet)[src := feet[src]][dst := feet[dst]]
      ensures fresh(feet[src] - old(feet[src])) && fresh(feet[dst] - old(feet[dst]))
      ensures C.Between(Topology(), old(State()), src, dst, order)
      ensures State() == C.Migrate(Topology(), old(State()), src, dst, order)
    {
      moved, order := MigrateBetween(src, dst);
      if moved.Some? {
        SetKeyOverride(moved.value, nodes[dst].ID);
      }
    }

    /** The first node with the least used bytes; a cluster without nodes has none. */
    method LeastUsedNode() returns (least: Option<nat>)
      ensures least.None? <==> forall i :: 0 <= i < |nodes| ==> nodes[i].cache.used >= MAX_USED
      ensures least.Some? ==>
                && least.value < |nodes|
                && (forall i :: 0 <= i < |nodes| ==> nodes[least.value].cache.used <= nodes[i].cache.used)
                && (forall i :: 0 <= i < least.value ==> nodes[least.value].cache.used < nodes[i].cache.used)
    {
      least := None;
      var minUsage := MAX_USED;
      for n := 0 to |nodes|
        invariant if least.None? then minUsage == MAX_USED
                  else least.value < n && minUsage == nodes[least.value].cache.used < MAX_USED
        invariant forall i :: 0 <= i < n ==> minUsage <= nodes[i].cache.used
        invariant least.Some? ==> forall i :: 0 <= i < least.value ==> minUsage < nodes[i].cache.used
      {
        var u := nodes[n].cache.used;
        if u < minUsage {
          minUsage, least := u, Some(n);
        }
      }
    }
  }

  /** A cluster but for some of its nodes. */
  datatype Rest = Rest(cluster: Cluster, but: set<int>)

  /** Every node none of whose objects changed still holds what it held. */
  twostate lemma OthersHold(r: Rest)
    requires old(r.cluster.Valid())
    requires r.cluster.feet == old(r.cluster.feet) && r.cluster.states == old(r.cluster.states)
    requires forall j :: 0 <= j < |r.cluster.feet| && j !in r.but ==> unchanged(r.cluster.feet[j])
    ensures var c := r.cluster;
            forall j :: 0 <= j < |c.nodes| && j !in r.but ==> c.Holds(j, c.feet[j], c.states[j], c.cfgs[j])
  {
    var c := r.cluster;
    forall j | 0 <= j < |c.nodes| && j !in r.but
      ensures c.Holds(j, c.feet[j], c.states[j], c.cfgs[j])
    {
      assert old(c.Holds(j, c.feet[j], c.states[j], c.cfgs[j]));
      Untouched(Bounded(c.nodes[j].cache, c.feet[j]));
    }
  }

  const MAX_USED: int := 0x7fff_ffff_ffff_ffff

  lemma FoundAt(ids: seq<int>, id: int, n: nat)
    requires n < |ids| && ids[n] == id && id !in ids[..n]
    ensures C.FindId(ids, id) == Some(n)
  {
    if n > 0 {
      assert ids[..n][0] == ids[0];
      assert ids[1..][..n - 1] == ids[..n][1..];
      FoundAt(ids[1..], id, n - 1);
    }
  }
}
