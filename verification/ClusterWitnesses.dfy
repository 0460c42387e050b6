/**
  Runs of a cluster of two nodes in which a migration of a key goes wrong: the key is stranded, or a
  client's Set or Delete of it comes between two of the migration's steps and is lost.
 */
module ClusterWitnesses {
  import opened Prelude
  import opened PolicyHistory
  import B = Breaker
  import opened CacheSpec
  import opened CacheAccounting
  import opened CacheWitnesses
  import opened ClusterCoherence
  import R = Ring

  /** Two nodes and a ring with a single point, of the first node. */
  function TwoNodes(cfg: Config, w0: World, w1: World): C.Topology {
    C.Topology([0, 1], [R.VirtualNode(0, 0)], _ => 0, [cfg, cfg], [w0, w1])
  }

  function Start(gate: B.Gate): History {
    Over(C.Cluster([Empty(gate, []), Empty(gate, [])], map[]), map[])
  }

  lemma RoutedToFirst(cfg: Config, w0: World, w1: World, k: Key)
    ensures TwoNodes(cfg, w0, w1).Valid() && C.Route(TwoNodes(cfg, w0, w1), map[], k) == Some(0)
  {
    assert R.Successor([R.VirtualNode(0, 0)], 0) in [R.VirtualNode(0, 0)];
  }

  lemma StartsFresh(cfg: Config, w0: World, w1: World, gate: B.Gate)
    ensures Fresh(TwoNodes(cfg, w0, w1), Start(gate))
  {
    RoutedToFirst(cfg, w0, w1, "");
  }

  /** Values small enough that nothing has to be evicted. */
  predicate Fitting(cfg: Config, v: Bytes) {
    Writes(cfg) && !cfg.ml && |v| <= cfg.capacity && 2 * |v| <= cfg.capacity + cfg.capacity / 2
  }

  /** The first node holds the key and nothing else, the second nothing, and nobody is redirected yet. */
  ghost predicate AtFirst(h: History, k: Key, v: Bytes) {
    && |h.c.nodes| == 2 && h.c.overrides == map[] && h.latest == map[k := v]
    && h.c.nodes[0].items.Keys == {k} && h.c.nodes[0].items[k].value == v && h.c.nodes[0].items[k].size == |v|
    && h.c.nodes[0].used == |v| && h.c.nodes[1].items == map[] && h.c.nodes[1].used == 0
  }

  lemma SetAtFirst(cfg: Config, w1: World, h: History, k: Key, v: Bytes, h': History)
    requires Fitting(cfg, v) && |h.c.nodes| == 2 && h.c.overrides == map[] && h.c.nodes[0].items.Keys <= {k}
    requires h.c.nodes[0].used == if k in h.c.nodes[0].items then h.c.nodes[0].items[k].size else 0
    requires h.latest.Keys <= {k}
    requires var top := TwoNodes(cfg, Silence(), w1);
             top.Valid() && h' == After(top, h, Client(C.Set(k, v, 0)))
    ensures h'.moves == h.moves && h'.c.overrides == map[] && h'.latest == map[k := v]
    ensures |h'.c.nodes| == 2 && h'.c.nodes[1] == h.c.nodes[1]
    ensures h'.c.nodes[0].items == map[k := Item(v, |v|, 1)] && h'.c.nodes[0].used == |v|
    ensures h'.c.nodes[0].log == h.c.nodes[0].log + [SetEntry(k, v, 0)]
  {
    RoutedToFirst(cfg, Silence(), w1, k);
    SilentSet(cfg, h.c.nodes[0], k, v);
    SetOutcome(cfg, Silence(), h.c.nodes[0], k, v, 0);
  }

  lemma FirstSet(cfg: Config, w1: World, gate: B.Gate, k: Key, v: Bytes, h: History)
    requires Fitting(cfg, v)
    requires var top := TwoNodes(cfg, Silence(), w1);
             top.Valid() && h == After(top, Start(gate), Client(C.Set(k, v, 0)))
    ensures AtFirst(h, k, v) && h.moves == map[]
    ensures h.c.nodes[0].log == [SetEntry(k, v, 0)] && h.c.nodes[1].log == []
  {
    SetAtFirst(cfg, w1, Start(gate), k, v, h);
  }

  // ----- the first two steps of a migration

  function Underway(k: Key, phase: Phase): map<nat, Migration> {
    map[0 := Migration(k, 0, 1, phase)]
  }

  lemma Fetches(cfg: Config, w1: World, h: History, k: Key, v: Bytes) returns (h': History)
    requires AtFirst(h, k, v) && h.moves == map[] && k != ""
    ensures Follows(TwoNodes(cfg, Silence(), w1), h, Fetch(0, k, 0, 1), h')
    ensures AtFirst(h', k, v) && h'.moves == Underway(k, Fetched(v)) && h'.c.nodes[1] == h.c.nodes[1]
    ensures h'.c.nodes[0].log == h.c.nodes[0].log
  {
    RoutedToFirst(cfg, Silence(), w1, k);
    h' := After(TwoNodes(cfg, Silence(), w1), h, Fetch(0, k, 0, 1));
  }

  lemma SilentStores(cfg: Config, s: St, k: Key)
    ensures Delete(cfg, Silence(), s, k).1 == Done
  {
  }

  /** u is what the node holds by now. */
  lemma LetsGo(cfg: Config, w1: World, h: History, k: Key, v: Bytes, u: Bytes) returns (h': History)
    requires Writes(cfg) && AtFirst(h, k, u) && h.moves == Underway(k, Fetched(v))
    ensures Follows(TwoNodes(cfg, Silence(), w1), h, Release(0), h')
    ensures h'.moves == Underway(k, Released(v)) && h'.c.overrides == map[] && h'.latest == h.latest
    ensures |h'.c.nodes| == 2 && h'.c.nodes[1] == h.c.nodes[1]
    ensures h'.c.nodes[0].items == map[] && h'.c.nodes[0].used == 0
    ensures h'.c.nodes[0].log == h.c.nodes[0].log + [DeleteEntry(k)]
  {
    RoutedToFirst(cfg, Silence(), w1, k);
    SilentDelete(cfg, h.c.nodes[0], k);
    SilentStores(cfg, h.c.nodes[0], k);
    h' := After(TwoNodes(cfg, Silence(), w1), h, Release(0));
    assert h.c.nodes[0].items - {k} == map[];
  }

  /** The key has left the first node and is not at the second. */
  ghost predicate InBetween(h: History, k: Key, v: Bytes) {
    && |h.c.nodes| == 2 && h.c.overrides == map[] && h.moves == Underway(k, Released(v))
    && h.c.nodes[0].items == map[] && h.c.nodes[0].used == 0
    && h.c.nodes[1].items == map[] && h.c.nodes[1].used == 0
  }

  lemma Departs(cfg: Config, w1: World, h: History, k: Key, v: Bytes) returns (h1: History, h2: History)
    requires Writes(cfg) && AtFirst(h, k, v) && h.moves == map[] && k != ""
    ensures var top := TwoNodes(cfg, Silence(), w1);
            Follows(top, h, Fetch(0, k, 0, 1), h1) && Follows(top, h1, Release(0), h2)
    ensures InBetween(h2, k, v) && h2.latest == h.latest && h2.c.nodes[1] == h.c.nodes[1]
    ensures h2.c.nodes[0].log == h.c.nodes[0].log + [DeleteEntry(k)]
  {
    h1 := Fetches(cfg, w1, h, k, v);
    h2 := LetsGo(cfg, w1, h1, k, v, v);
  }

  // ----- a stranded key

  function FailingStore(): World {
    t => Choice([], NO_CALL, true, false)
  }

  /** An empty node takes any value that fits. */
  lemma EmptyAccepts(cfg: Config, w: World, s: St, k: Key, v: Bytes)
    requires w(s.t).appended && |v| <= cfg.capacity && s.used == 0 && k !in s.items
    ensures Accepts(cfg, w, s, k, v, 0)
  {
    var a := Append(cfg, w, s, SetEntry(k, v, 0)).0;
    AppendSettles(cfg, w, s, SetEntry(k, v, 0));
    FittingRoom(cfg, w, a, k, v);
  }

  lemma StrandsIt(cfg: Config, h: History, k: Key, v: Bytes) returns (h': History)
    requires |v| <= cfg.capacity && InBetween(h, k, v)
    ensures Follows(TwoNodes(cfg, Silence(), FailingStore()), h, Deliver(0), h')
    ensures h'.moves == map[] && h'.c.overrides == map[] && |h'.c.nodes| == 2
    ensures k in h'.c.nodes[1].items && h'.c.nodes[0].items == map[]
  {
    var s := h.c.nodes[1];
    RoutedToFirst(cfg, Silence(), FailingStore(), k);
    h' := After(TwoNodes(cfg, Silence(), FailingStore()), h, Deliver(0));
    EmptyAccepts(cfg, FailingStore(), s, k, v);
    SetOutcome(cfg, FailingStore(), s, k, v, 0);
    SetWithin(cfg, FailingStore(), s, k, v, 0);
    assert Underway(k, Released(v)) - {0} == map[];
  }

  lemma Misplaced(cfg: Config, w0: World, w1: World, h: History, k: Key)
    requires |h.c.nodes| == 2 && h.c.overrides == map[] && h.moves == map[]
    requires k in h.c.nodes[1].items && h.c.nodes[0].items == map[]
    ensures var top := TwoNodes(cfg, w0, w1);
            top.Valid() && !Sound(top, h) && C.Lookup(top, h.c, k) == None
  {
    RoutedToFirst(cfg, w0, w1, k);
    assert !Placed(TwoNodes(cfg, w0, w1), h, k, 1);
  }

  /** Two LRU nodes of eight bytes; the second one's store fails. The first is set a key of four bytes,
      and it is migrated: then the second holds the key, nobody will redirect its clients, and a Get
      misses. */
  lemma StrandedKey(cfg: Config, top: C.Topology, gate: B.Gate, k: Key, v: Bytes)
    returns (h1: History, h2: History, h3: History, h4: History)
    requires cfg == Node(8, Lru) && top == TwoNodes(cfg, Silence(), FailingStore()) && k == "k" && v == "1234"
    ensures Fresh(top, Start(gate)) && Follows(top, Start(gate), Client(C.Set(k, v, 0)), h1)
    ensures Follows(top, h1, Fetch(0, k, 0, 1), h2) && Follows(top, h2, Release(0), h3)
    ensures Follows(top, h3, Deliver(0), h4) && !Sound(top, h4)
    ensures C.WellFormed(top, h4.c) && C.Lookup(top, h4.c, k) == None
    ensures k in h4.c.nodes[1].items && h4.moves == map[]
  {
    StartsFresh(cfg, Silence(), FailingStore(), gate);
    h1 := After(top, Start(gate), Client(C.Set(k, v, 0)));
    FirstSet(cfg, FailingStore(), gate, k, v, h1);
    h2, h3 := Departs(cfg, FailingStore(), h1, k, v);
    h4 := StrandsIt(cfg, h3, k, v);
    Misplaced(cfg, Silence(), FailingStore(), h4, k);
  }

  // ----- a client's write between two of the steps

  /** The key is at the second node, and its clients are still sent to the first. */
  ghost predicate AtSecond(h: History, k: Key, v: Bytes) {
    && |h.c.nodes| == 2 && h.c.overrides == map[] && h.moves == Underway(k, Moved)
    && h.c.nodes[0].items == map[] && h.c.nodes[0].used == 0
    && h.c.nodes[1].items == map[k := Item(v, |v|, 1)] && h.c.nodes[1].used == |v|
  }

  lemma Arrives(cfg: Config, h: History, k: Key, v: Bytes) returns (h': History)
    requires Fitting(cfg, v) && InBetween(h, k, v)
    ensures Follows(TwoNodes(cfg, Silence(), Silence()), h, Deliver(0), h')
    ensures AtSecond(h', k, v) && h'.latest == h.latest && h'.c.nodes[0] == h.c.nodes[0]
    ensures h'.c.nodes[1].log == h.c.nodes[1].log + [SetEntry(k, v, 0)]
  {
    RoutedToFirst(cfg, Silence(), Silence(), k);
    SilentSet(cfg, h.c.nodes[1], k, v);
    h' := After(TwoNodes(cfg, Silence(), Silence()), h, Deliver(0));
  }

  lemma Redirected(top: C.Topology, h: History, id: nat, k: Key, v: Bytes)
    requires Enabled(top, h, Redirect(id)) && h.moves[id].key == k && k in h.c.nodes[h.moves[id].dst].items
    requires h.c.nodes[h.moves[id].dst].items[k].value == v
    ensures C.Lookup(top, After(top, h, Redirect(id)).c, k) == Some(v)
  {
    DistinctIds(top, h.moves[id].dst);
  }

  /** Redirected, its clients get what the second node holds. */
  lemma Follow(cfg: Config, h: History, k: Key, v: Bytes) returns (h': History)
    requires |h.c.nodes| == 2 && h.moves == Underway(k, Moved) && k in h.c.nodes[1].items
    requires h.c.nodes[1].items[k].value == v
    ensures var top := TwoNodes(cfg, Silence(), Silence());
            && Follows(top, h, Redirect(0), h') && C.WellFormed(top, h'.c) && C.Lookup(top, h'.c, k) == Some(v)
            && h'.latest == h.latest && h'.c.nodes == h.c.nodes && h'.moves == map[]
  {
    var top := TwoNodes(cfg, Silence(), Silence());
    RoutedToFirst(cfg, Silence(), Silence(), k);
    h' := After(top, h, Redirect(0));
    Redirected(top, h, 0, k, v);
    assert Underway(k, Moved) - {0} == map[];
  }

  lemma EmptyIsSound(top: C.Topology, h: History)
    requires forall i :: 0 <= i < |h.c.nodes| ==> h.c.nodes[i].items == map[]
    ensures Sound(top, h)
  {
  }

  lemma Outdated(top: C.Topology, h: History, k: Key)
    requires |h.c.nodes| == 2 && k in h.c.nodes[1].items && !UpToDate(h.latest, k, h.c.nodes[1].items[k].value)
    ensures !Sound(top, h)
  {
  }

  /** Set, migrated up to its delivery. */
  lemma SetAndMoved(cfg: Config, gate: B.Gate, k: Key, v: Bytes)
    returns (h1: History, h2: History, h3: History, h4: History)
    requires Fitting(cfg, v) && k != ""
    ensures var top := TwoNodes(cfg, Silence(), Silence());
            && Fresh(top, Start(gate)) && Follows(top, Start(gate), Client(C.Set(k, v, 0)), h1)
            && Follows(top, h1, Fetch(0, k, 0, 1), h2) && Follows(top, h2, Release(0), h3)
            && Follows(top, h3, Deliver(0), h4)
    ensures AtSecond(h4, k, v) && h4.latest == map[k := v]
    ensures h4.c.nodes[0].log == [SetEntry(k, v, 0), DeleteEntry(k)] && h4.c.nodes[1].log == [SetEntry(k, v, 0)]
  {
    var top := TwoNodes(cfg, Silence(), Silence());
    StartsFresh(cfg, Silence(), Silence(), gate);
    h1 := After(top, Start(gate), Client(C.Set(k, v, 0)));
    FirstSet(cfg, Silence(), gate, k, v, h1);
    h2, h3 := Departs(cfg, Silence(), h1, k, v);
    h4 := Arrives(cfg, h3, k, v);
    TwoJoined(SetEntry(k, v, 0), DeleteEntry(k));
  }

  /** Two LRU nodes of eight bytes, without faults. A key is set and migrated; before its clients are
      redirected one of them sets it again. From then on a Get returns the value of the first Set. */
  lemma OvertakenKey(cfg: Config, top: C.Topology, gate: B.Gate, k: Key, v: Bytes, u: Bytes)
    returns (h1: History, h2: History, h3: History, h4: History, h5: History, h6: History)
    requires cfg == Node(8, Lru) && top == TwoNodes(cfg, Silence(), Silence()) && k == "k" && v == "old" && u == "new"
    ensures Fresh(top, Start(gate)) && Follows(top, Start(gate), Client(C.Set(k, v, 0)), h1)
    ensures Follows(top, h1, Fetch(0, k, 0, 1), h2) && Follows(top, h2, Release(0), h3)
    ensures Follows(top, h3, Deliver(0), h4) && Follows(top, h4, Client(C.Set(k, u, 0)), h5)
    ensures Follows(top, h5, Redirect(0), h6) && !Sound(top, h5)
    ensures C.WellFormed(top, h6.c) && h6.latest == map[k := u] && C.Lookup(top, h6.c, k) == Some(v)
  {
    h1, h2, h3, h4 := SetAndMoved(cfg, gate, k, v);
    h5 := After(top, h4, Client(C.Set(k, u, 0)));
    SetAtFirst(cfg, Silence(), h4, k, u, h5);
    assert v[0] != u[0];
    Outdated(top, h5, k);
    h6 := Follow(cfg, h5, k, v);
  }

  lemma DeleteAtFirst(cfg: Config, h: History, k: Key, v: Bytes, h': History)
    requires AtSecond(h, k, v) && h.latest == map[k := v]
    requires var top := TwoNodes(cfg, Silence(), Silence());
             top.Valid() && h' == After(top, h, Client(C.Delete(k)))
    ensures h'.moves == h.moves && h'.latest == map[] && |h'.c.nodes| == 2 && h'.c.nodes[1] == h.c.nodes[1]
    ensures Delete(cfg, Silence(), h.c.nodes[0], k).1 == Done
  {
    RoutedToFirst(cfg, Silence(), Silence(), k);
    SilentStores(cfg, h.c.nodes[0], k);
    assert map[k := v] - {k} == map[];
  }

  /** The same run with a Delete. It is reported done, but from then on a Get returns the value deleted. */
  lemma LostDelete(cfg: Config, top: C.Topology, gate: B.Gate, k: Key, v: Bytes)
    returns (h1: History, h2: History, h3: History, h4: History, h5: History, h6: History)
    requires cfg == Node(8, Lru) && top == TwoNodes(cfg, Silence(), Silence()) && k == "k" && v == "1234"
    ensures Fresh(top, Start(gate)) && Follows(top, Start(gate), Client(C.Set(k, v, 0)), h1)
    ensures Follows(top, h1, Fetch(0, k, 0, 1), h2) && Follows(top, h2, Release(0), h3)
    ensures Follows(top, h3, Deliver(0), h4) && Follows(top, h4, Client(C.Delete(k)), h5)
    ensures Follows(top, h5, Redirect(0), h6) && !Sound(top, h5)
    ensures Delete(cfg, Silence(), h4.c.nodes[0], k).1 == Done
    ensures C.WellFormed(top, h6.c) && h6.latest == map[] && C.Lookup(top, h6.c, k) == Some(v)
  {
    h1, h2, h3, h4 := SetAndMoved(cfg, gate, k, v);
    h5 := After(top, h4, Client(C.Delete(k)));
    DeleteAtFirst(cfg, h4, k, v, h5);
    Outdated(top, h5, k);
    h6 := Follow(cfg, h5, k, v);
  }

  lemma SetsAgain(cfg: Config, h: History, k: Key, v: Bytes, u: Bytes) returns (h': History)
    requires Fitting(cfg, u) && AtFirst(h, k, v)
    ensures Follows(TwoNodes(cfg, Silence(), Silence()), h, Client(C.Set(k, u, 0)), h')
    ensures AtFirst(h', k, u) && h'.moves == h.moves
  {
    var top := TwoNodes(cfg, Silence(), Silence());
    RoutedToFirst(cfg, Silence(), Silence(), k);
    h' := After(top, h, Client(C.Set(k, u, 0)));
    SetAtFirst(cfg, Silence(), h, k, u, h');
  }

  /** Set, fetched, and set again before the source lets go of the key. */
  lemma SetTwice(cfg: Config, gate: B.Gate, k: Key, v: Bytes, u: Bytes)
    returns (h1: History, h2: History, h3: History)
    requires Fitting(cfg, v) && Fitting(cfg, u) && k != ""
    ensures var top := TwoNodes(cfg, Silence(), Silence());
            && Fresh(top, Start(gate)) && Follows(top, Start(gate), Client(C.Set(k, v, 0)), h1)
            && Follows(top, h1, Fetch(0, k, 0, 1), h2) && Follows(top, h2, Client(C.Set(k, u, 0)), h3)
    ensures AtFirst(h3, k, u) && h3.moves == Underway(k, Fetched(v))
  {
    var top := TwoNodes(cfg, Silence(), Silence());
    StartsFresh(cfg, Silence(), Silence(), gate);
    h1 := After(top, Start(gate), Client(C.Set(k, v, 0)));
    FirstSet(cfg, Silence(), gate, k, v, h1);
    h2 := Fetches(cfg, Silence(), h1, k, v);
    h3 := SetsAgain(cfg, h2, k, v, u);
  }

  /** Then released and delivered with the value read before. */
  lemma DeliversOld(cfg: Config, h: History, k: Key, v: Bytes, u: Bytes) returns (h4: History, h5: History)
    requires Fitting(cfg, v) && AtFirst(h, k, u) && h.moves == Underway(k, Fetched(v)) && v != u
    ensures var top := TwoNodes(cfg, Silence(), Silence());
            && Follows(top, h, Release(0), h4) && Follows(top, h4, Deliver(0), h5)
            && Sound(top, h4) && !Sound(top, h5)
    ensures AtSecond(h5, k, v) && h5.latest == map[k := u]
  {
    var top := TwoNodes(cfg, Silence(), Silence());
    h4 := LetsGo(cfg, Silence(), h, k, v, u);
    EmptyIsSound(top, h4);
    h5 := Arrives(cfg, h4, k, v);
    Outdated(top, h5, k);
  }

  /** A client's Set comes between reading the value and letting go of the key. It is accepted and
      stored; then the source deletes it, and the target is given the value read before. */
  lemma LostUpdate(cfg: Config, top: C.Topology, gate: B.Gate, k: Key, v: Bytes, u: Bytes)
    returns (h1: History, h2: History, h3: History, h4: History, h5: History, h6: History)
    requires cfg == Node(8, Lru) && top == TwoNodes(cfg, Silence(), Silence()) && k == "k" && v == "old" && u == "new"
    ensures Fresh(top, Start(gate)) && Follows(top, Start(gate), Client(C.Set(k, v, 0)), h1)
    ensures Follows(top, h1, Fetch(0, k, 0, 1), h2) && Follows(top, h2, Client(C.Set(k, u, 0)), h3)
    ensures Follows(top, h3, Release(0), h4) && Follows(top, h4, Deliver(0), h5) && Follows(top, h5, Redirect(0), h6)
    ensures Sound(top, h4) && !Sound(top, h5)
    ensures C.WellFormed(top, h6.c) && h6.latest == map[k := u] && C.Lookup(top, h6.c, k) == Some(v)
  {
    h1, h2, h3 := SetTwice(cfg, gate, k, v, u);
    assert v[0] != u[0];
    h4, h5 := DeliversOld(cfg, h3, k, v, u);
    h6 := Follow(cfg, h5, k, v);
  }
}
