/**
  Which key a migration moves: the first one, in the order its source's keys are walked, of those read
  most since they were last set.
 */
module ClusterHottest {
  import opened Prelude
  import opened PolicyHistory
  import opened CacheSpec
  import opened CacheFrequency
  import opened CacheWitnesses
  import opened ClusterCoherence

  // ----- every node of a cluster counts its reads

  ghost predicate AllCounted(c: C.Cluster) {
    forall i :: 0 <= i < |c.nodes| ==> Counted(c.nodes[i])
  }

  lemma PutCounted(c: C.Cluster, i: nat, s: St)
    requires AllCounted(c) && i < |c.nodes| && Counted(s)
    ensures AllCounted(C.Put(c, i, s))
  {
  }

  lemma DeliveryCounts(top: C.Topology, h: History, id: nat)
    requires Enabled(top, h, Deliver(id)) && AllCounted(h.c)
    ensures AllCounted(After(top, h, Deliver(id)).c)
  {
    var m := h.moves[id];
    SetCounts(top.cfgs[m.dst], top.worlds[m.dst], h.c.nodes[m.dst], m.key, m.phase.value, 0);
  }

  lemma ServeCounts(top: C.Topology, c: C.Cluster, op: C.ClientOp)
    requires C.WellFormed(top, c) && AllCounted(c)
    ensures AllCounted(C.Serve(top, c, op))
  {
    C.RouteInRange(top, c.overrides, op.key);
    var r := C.Route(top, c.overrides, op.key);
    if r.Some? {
      DoCounts(top.cfgs[r.value], top.worlds[r.value], c.nodes[r.value], op.AtNode());
    }
  }

  /** Whatever clients, background work and migrations do. */
  lemma StepCounts(top: C.Topology, h: History, step: Step)
    requires Enabled(top, h, step) && AllCounted(h.c)
    ensures AllCounted(After(top, h, step).c)
  {
    match step
    case Client(op) => ServeCounts(top, h.c, op);
    case Fetch(_, key, src, _) => LookCounts(h.c.nodes[src], key);
    case Release(id) =>
      var m := h.moves[id];
      DeleteCounts(top.cfgs[m.src], top.worlds[m.src], h.c.nodes[m.src], m.key);
    case Deliver(id) => DeliveryCounts(top, h, id);
    case Redirect(_) =>
    case Background(i, o) => DoCounts(top.cfgs[i], top.worlds[i], h.c.nodes[i], o);
  }

  /** In every run from nodes that have each replayed whatever log they found. */
  lemma {:induction false} RunsCounted(top: C.Topology, run: seq<History>, steps: seq<Step>, n: nat)
    requires IsRun(top, run, steps) && AllCounted(run[0].c) && n < |run|
    ensures AllCounted(run[n].c)
  {
    if n > 0 {
      RunsCounted(top, run, steps, n - 1);
      assert Follows(top, run[n - 1], steps[n - 1], run[n]);
      StepCounts(top, run[n - 1], steps[n - 1]);
    }
  }

  // ----- the hottest key

  /** Nothing in the order has been read oftener since it was set, and nothing before it as often. */
  ghost predicate MostRead(h: seq<Event>, order: seq<Key>, n: nat)
    requires n < |order|
  {
    && (forall m :: 0 <= m < |order| ==> |ReadsSince(h, order[m])| <= |ReadsSince(h, order[n])|)
    && (forall m :: 0 <= m < n ==> |ReadsSince(h, order[m])| < |ReadsSince(h, order[n])|)
  }

  lemma HottestIsMostRead(s: St, order: seq<Key>) returns (n: nat)
    requires Counted(s) && order != [] && forall k :: k in order ==> k in s.items
    ensures n < |order| && C.Hottest(s.items, order) == Some(order[n]) && MostRead(s.hist, order, n)
  {
    n := C.HottestIs(s.items, order);
    assert order[n] in s.items;
    forall m | 0 <= m < |order|
      ensures |ReadsSince(s.hist, order[m])| <= |ReadsSince(s.hist, order[n])|
      ensures m < n ==> |ReadsSince(s.hist, order[m])| < |ReadsSince(s.hist, order[n])|
    {
      assert order[m] in s.items;
    }
  }

  /** The key a migration reports to have moved is that one, and it reports none if that one has the
      empty name. */
  lemma MigrationMovesMostRead(cfg: Config, w: World, s: St, cfg': Config, w': World, s': St, order: seq<Key>)
    returns (n: nat)
    requires Counted(s) && order != [] && forall k :: k in order ==> k in s.items
    ensures n < |order| && MostRead(s.hist, order, n)
    ensures var moved := C.HandHottest(cfg, w, s, cfg', w', s', order).2;
            moved.Some? ==> moved.value == order[n] && order[n] != ""
    ensures order[n] == "" ==> C.HandHottest(cfg, w, s, cfg', w', s', order) == (s, s', None)
  {
    n := HottestIsMostRead(s, order);
  }

  // ----- a witness

  /** Two keys set, the second then read three times: it has frequency four, and the first one one. */
  lemma SetsThenReads(cfg: Config, s: St, a: Key, b: Key, s': St)
    requires a != b && s.items.Keys == {a, b} && s.items[a].frequency == s.items[b].frequency == 1
    requires s' == Look(Look(Look(s, b), b), b)
    ensures s'.items.Keys == {a, b} && s'.items[a].frequency == 1 && s'.items[b].frequency == 4
    ensures s'.items[b].value == s.items[b].value && s'.items[b].size == s.items[b].size
  {
  }

  lemma SecondIsHottest(items: Items, a: Key, b: Key)
    requires a in items && b in items && items[a].frequency < items[b].frequency
    ensures C.Hottest(items, [a, b]) == Some(b)
  {
    assert [a, b][..1] == [a] && [a][..0] == [];
    assert C.Hottest(items, [a]) == Some(a);
  }

  /** LRU, capacity 16: set a and b to two bytes each, read b three times, migrate to an empty node: of
      the keys walked as a, b the one moved is b. */
  lemma OftenReadMoves(cfg: Config, ops: seq<Op>, s: St, s': St)
    requires cfg == Node(16, Lru) && ops == [SetOp("a", "12", 0), SetOp("b", "34", 0)]
    requires s == Look(Look(Look(Run(cfg, Silence(), Empty(OffService(), []), ops), "b"), "b"), "b")
    requires s' == Empty(OffService(), [])
    ensures s.items.Keys == {"a", "b"} && s.items["b"].frequency == 4 && s.items["a"].frequency == 1
    ensures C.HandHottest(cfg, Silence(), s, cfg, Silence(), s', ["a", "b"]).2 == Some("b")
  {
    var r := Run(cfg, Silence(), Empty(OffService(), []), ops);
    TwoSets(cfg, OffService(), "a", "12", "b", "34", r);
    SetsThenReads(cfg, r, "a", "b", s);
    SecondIsHottest(s.items, "a", "b");
    SilentDelete(cfg, Look(s, "b"), "b");
    SilentSet(cfg, s', "b", "34");
    assert s.items["b"].value == "34";
  }
}
