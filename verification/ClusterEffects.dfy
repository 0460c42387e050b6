/**
  What reaches which node: a client's operation the node it is sent to and no other, and a migration the
  logs of its two nodes.
 */
module ClusterEffects {
  import opened Prelude
  import opened PolicyHistory
  import opened CacheSpec
  import opened CacheChoice
  import opened CacheEffects
  import opened WalCodec
  import C = ClusterSpec
  import R = Ring

  // ----- clients

  /** What a client's operation does at the node it reaches: a Set and a Delete all they do on a single
      node; a Get counts the read of a live key and changes nothing else. */
  ghost predicate Does(cfg: Config, w: World, s: St, op: C.ClientOp, s': St) {
    match op
    case Set(k, v, ttl) => s' == CacheSpec.Set(cfg, w, s, k, v, ttl).0
    case Get(k) =>
      && s'.items.Keys == s.items.Keys && s'.used == s.used && s'.log == s.log && s'.gate == s.gate
      && s'.hist == s.hist + (if k in s.items then [Got(k)] else [])
      && (forall j :: j in s.items ==> s'.items[j] == s.items[j] || j == k)
      && (k in s.items ==> s'.items[k] == s.items[k].(frequency := s.items[k].frequency + 1))
    case Delete(k) => Deletes(cfg, w, s, k, s')
  }

  lemma NodeDoes(cfg: Config, w: World, s: St, op: C.ClientOp)
    ensures Does(cfg, w, s, op, Do(cfg, w, s, op.AtNode()))
  {
    match op
    case Set(k, v, ttl) =>
    case Get(k) => assert s.hist + [] == s.hist;
    case Delete(k) => DeleteMeans(cfg, w, s, k);
  }

  /** It reaches the node its key is sent to and leaves every other node and the overrides alone; when the
      key is sent nowhere nothing happens. */
  lemma ServedWhereSent(top: C.Topology, c: C.Cluster, op: C.ClientOp, to: Option<nat>)
    requires C.WellFormed(top, c) && R.Sorted(top.ring) && C.SentTo(top, c.overrides, op.key, to)
    ensures var c' := C.Serve(top, c, op);
            && c'.overrides == c.overrides && |c'.nodes| == |c.nodes|
            && (forall j :: 0 <= j < |c.nodes| && to != Some(j) ==> c'.nodes[j] == c.nodes[j])
            && (to.Some? ==>
                  && to.value < |c.nodes|
                  && Does(top.cfgs[to.value], top.worlds[to.value], c.nodes[to.value], op, c'.nodes[to.value]))
  {
    C.RouteIsSentTo(top, c.overrides, op.key, to);
    C.RouteInRange(top, c.overrides, op.key);
    if to.Some? {
      NodeDoes(top.cfgs[to.value], top.worlds[to.value], c.nodes[to.value], op);
    }
  }

  /** A cluster Get returns the value there, and nothing if the key is not live there or is sent nowhere. */
  lemma LookedUpWhereSent(top: C.Topology, c: C.Cluster, k: Key, to: Option<nat>)
    requires C.WellFormed(top, c) && R.Sorted(top.ring) && C.SentTo(top, c.overrides, k, to)
    ensures to.Some? ==> to.value < |c.nodes|
    ensures C.Lookup(top, c, k) ==
            if to.Some? && k in c.nodes[to.value].items then Some(c.nodes[to.value].items[k].value) else None
  {
    C.RouteIsSentTo(top, c.overrides, k, to);
    C.RouteInRange(top, c.overrides, k);
  }

  // ----- migrations

  /** What a move writes to the two logs: the source its delete, and then the target, unless that delete was
      reported to have failed, a set of the value the source held, without a TTL. */
  lemma MoveIsLogged(cfg: Config, w: World, s: St, cfg': Config, w': World, s': St, hot: Key)
    requires hot in s.items && Writes(cfg) && Writes(cfg') && w'(s'.t).appended
    ensures var (gone, held, stored) := C.Handover(cfg, w, s, cfg', w', s', hot);
            && gone.log == s.log + (if w(s.t).appended then [Entry("delete", hot, "", 0)] else [])
            && (stored.Some? <==> w(s.t).appended && w(s.t + 1).stored)
            && if stored.Some? then s'.log + [Entry("set", hot, s.items[hot].value, 0)] <= held.log else held == s'
  {
    DeleteMeans(cfg, w, Look(s, hot), hot);
    SetLogsFirst(cfg', w', s', hot, s.items[hot].value, 0);
    assert s.log + [] == s.log;
  }

  lemma MoveEnds(cfg: Config, w: World, s: St, cfg': Config, w': World, s': St, hot: Key)
    requires hot in s.items
    ensures C.Handover(cfg, w, s, cfg', w', s', hot).2 ==
            if DeleteReports(cfg, w, s, hot) == Done then Some(SetReports(cfg', w', s', hot, s.items[hot].value, 0))
            else None
  {
    DeleteMeans(cfg, w, Look(s, hot), hot);
    SetReportsIt(cfg', w', s', hot, s.items[hot].value, 0);
  }

  /** It is reported exactly when neither the delete nor the Set met a fault and the target had room. */
  lemma MoveIsReported(cfg: Config, w: World, s: St, cfg': Config, w': World, s': St, order: seq<Key>, hot: Key)
    requires (forall k :: k in order ==> k in s.items) && C.Hottest(s.items, order) == Some(hot) && hot != ""
    ensures C.HandHottest(cfg, w, s, cfg', w', s', order).2 ==
            if DeleteReports(cfg, w, s, hot) == Done
               && SetReports(cfg', w', s', hot, s.items[hot].value, 0) == Done then Some(hot) else None
  {
    MoveEnds(cfg, w, s, cfg', w', s', hot);
  }

  /** After a migration that reports a key, the clients of that key are sent to the target. */
  lemma MoveIsFollowed(top: C.Topology, c: C.Cluster, src: nat, dst: nat, order: seq<Key>, k: Key)
    requires C.Between(top, c, src, dst, order) && C.Hand(top, c, src, dst, order).1 == Some(k)
    ensures C.SentTo(top, C.Migrate(top, c, src, dst, order).overrides, k, Some(dst))
  {
    assert top.ids[dst] in top.ids;
  }
}
