/**
  A restart of the whole cluster. Each node replays its log, under whatever policy it now has, and the
  ring is built as before; but the overrides are kept in memory only, so every key is routed by the
  ring again.
 */
module ClusterRestart {
  import opened Prelude
  import opened PolicyHistory
  import D = Decimal
  import opened WalCodec
  import opened CacheSpec
  import opened CacheAccounting
  import opened CacheLog
  import opened CacheRecovery
  import opened CacheWitnesses
  import opened ClusterCoherence
  import opened ClusterWitnesses

  /** A node with a light log, that has evicted nothing, and whose file reads back as its log: as
      LightRunPlain and FileReadsBack promise. */
  ghost predicate Recoverable(cfg: Config, s: St, file: string) {
    Light(cfg.capacity, s.log) && Plain(cfg.capacity, s, s.log) && ReadFile(file) == Ok(s.log)
  }

  /** The same nodes and ring; worlds and policies may differ. */
  ghost predicate SameNodes(top: C.Topology, top': C.Topology) {
    && top.Valid() && top'.Valid() && top'.ids == top.ids && top'.ring == top.ring && top'.hash == top.hash
    && forall i :: 0 <= i < |top.cfgs| ==> top'.cfgs[i].capacity == top.cfgs[i].capacity
  }

  ghost predicate AllRecoverable(top: C.Topology, c: C.Cluster, files: seq<string>) {
    && C.WellFormed(top, c) && |files| == |c.nodes|
    && forall i :: 0 <= i < |c.nodes| ==> Recoverable(top.cfgs[i], c.nodes[i], files[i])
  }

  ghost function Reopened(top: C.Topology, gates: seq<B.Gate>, files: seq<string>): C.Cluster
    requires top.Valid() && |gates| == |files| == |top.ids|
    requires forall i :: 0 <= i < |files| ==> ReadFile(files[i]).Ok?
  {
    C.Cluster(seq(|files|, i requires 0 <= i < |files| =>
                Started(top.cfgs[i], top.worlds[i], gates[i], ReadFile(files[i]).value)), map[])
  }

  lemma NodeComesBack(cfg: Config, s: St, file: string, cfg': Config, w: World, gate: B.Gate)
    requires Recoverable(cfg, s, file) && cfg'.capacity == cfg.capacity
    ensures Live(Started(cfg', w, gate, s.log).items) == Live(s.items)
  {
    StartedPlain(cfg', w, gate, s.log);
  }

  /** Every live key is at its owner on the ring. */
  ghost predicate AtHome(top: C.Topology, c: C.Cluster) {
    forall i, k :: 0 <= i < |c.nodes| && k in c.nodes[i].items ==> C.Route(top, map[], k) == Some(i)
  }

  /** The nodes hold the same keys with the same values. */
  ghost predicate SameContent(c: C.Cluster, c': C.Cluster) {
    |c.nodes| == |c'.nodes| && forall i :: 0 <= i < |c.nodes| ==> Live(c'.nodes[i].items) == Live(c.nodes[i].items)
  }

  lemma ReopenedSame(top: C.Topology, c: C.Cluster, top': C.Topology, gates: seq<B.Gate>, files: seq<string>)
    requires SameNodes(top, top') && AllRecoverable(top, c, files) && |gates| == |files|
    ensures forall i :: 0 <= i < |files| ==> ReadFile(files[i]).Ok?
    ensures SameContent(c, Reopened(top', gates, files))
  {
    forall i | 0 <= i < |files| ensures ReadFile(files[i]) == Ok(c.nodes[i].log) {
      assert Recoverable(top.cfgs[i], c.nodes[i], files[i]);
    }
    forall i | 0 <= i < |files|
      ensures Live(Reopened(top', gates, files).nodes[i].items) == Live(c.nodes[i].items)
    {
      NodeComesBack(top.cfgs[i], c.nodes[i], files[i], top'.cfgs[i], top'.worlds[i], gates[i]);
    }
  }

  lemma SameRoute(top: C.Topology, top': C.Topology, k: Key)
    requires SameNodes(top, top')
    ensures C.Route(top', map[], k) == C.Route(top, map[], k)
  {
  }

  lemma LiveAt(items: Items, items': Items, k: Key)
    requires Live(items) == Live(items')
    ensures k in items <==> k in items'
    ensures k in items ==> items[k].value == items'[k].value
  {
    assert k in items <==> k in Live(items);
    assert k in items' <==> k in Live(items');
    assert k in items && k in items' ==> Live(items)[k] == items[k].value && Live(items')[k] == items'[k].value;
  }

  /** c' holds what c holds, in a sound state of it, and has no overrides. */
  ghost predicate ComesBack(top: C.Topology, c: C.Cluster, top': C.Topology, c': C.Cluster, latest: map<Key, Bytes>) {
    SameNodes(top, top') && SameContent(c, c') && c'.overrides == map[] && Current(c, latest)
  }

  lemma ReopenedAt(top: C.Topology, c: C.Cluster, top': C.Topology, c': C.Cluster, latest: map<Key, Bytes>,
                   i: nat, k: Key)
    requires ComesBack(top, c, top', c', latest) && i < |c.nodes|
    ensures k in c.nodes[i].items <==> k in c'.nodes[i].items
    ensures k in c.nodes[i].items ==> UpToDate(latest, k, c'.nodes[i].items[k].value)
    ensures Placed(top', Over(c', latest), k, i) <==> C.Route(top, map[], k) == Some(i)
  {
    LiveAt(c.nodes[i].items, c'.nodes[i].items, k);
    SameRoute(top, top', k);
  }

  lemma SoundIfHome(top: C.Topology, c: C.Cluster, top': C.Topology, c': C.Cluster, latest: map<Key, Bytes>)
    requires ComesBack(top, c, top', c', latest) && AtHome(top, c)
    ensures Sound(top', Over(c', latest))
  {
    forall i, k | 0 <= i < |c'.nodes| && k in c'.nodes[i].items
      ensures Placed(top', Over(c', latest), k, i) && UpToDate(latest, k, c'.nodes[i].items[k].value)
    {
      ReopenedAt(top, c, top', c', latest, i, k);
    }
  }

  lemma HomeIfSound(top: C.Topology, c: C.Cluster, top': C.Topology, c': C.Cluster, latest: map<Key, Bytes>)
    requires ComesBack(top, c, top', c', latest) && Sound(top', Over(c', latest))
    ensures AtHome(top, c)
  {
    forall i, k | 0 <= i < |c.nodes| && k in c.nodes[i].items
      ensures C.Route(top, map[], k) == Some(i)
    {
      ReopenedAt(top, c, top', c', latest, i, k);
      assert Placed(top', Over(c', latest), k, i);
    }
  }

  /** A sound cluster of nodes that can be recovered comes back with every key and value where it was.
      It comes back sound, so that from then on Gets return what was last accepted, if and only if
      every key was at its owner on the ring: a key that lives by an override is lost to its clients. */
  lemma RestartKeeps(top: C.Topology, h: History, top': C.Topology, gates: seq<B.Gate>, files: seq<string>)
    requires SameNodes(top, top') && AllRecoverable(top, h.c, files) && |gates| == |files| && Sound(top, h)
    ensures forall i :: 0 <= i < |files| ==> ReadFile(files[i]).Ok?
    ensures SameContent(h.c, Reopened(top', gates, files))
    ensures Sound(top', Over(Reopened(top', gates, files), h.latest)) <==> AtHome(top, h.c)
  {
    ReopenedSame(top, h.c, top', gates, files);
    var c' := Reopened(top', gates, files);
    if AtHome(top, h.c) {
      SoundIfHome(top, h.c, top', c', h.latest);
    }
    if Sound(top', Over(c', h.latest)) {
      HomeIfSound(top, h.c, top', c', h.latest);
    }
  }

  // ----- a key lost that way

  lemma SetIsLight(cap: nat, k: Key, v: Bytes)
    requires |v| <= cap && 2 * |v| <= cap + cap / 2
    ensures Fold(cap, [SetEntry(k, v, 0)]) == map[k := v] && Light(cap, [SetEntry(k, v, 0)])
  {
    FoldSnoc(cap, [], SetEntry(k, v, 0));
    assert [] + [SetEntry(k, v, 0)] == [SetEntry(k, v, 0)];
    assert AsItems(map[k := v]) == map[k := Item(v, |v|, 0)];
    SingleTotal(k, Item(v, |v|, 0));
  }

  lemma SetThenDeleteIsLight(cap: nat, k: Key, v: Bytes)
    requires |v| <= cap && 2 * |v| <= cap + cap / 2
    ensures Fold(cap, [SetEntry(k, v, 0), DeleteEntry(k)]) == map[] && Light(cap, [SetEntry(k, v, 0), DeleteEntry(k)])
  {
    var log := [SetEntry(k, v, 0)];
    SetIsLight(cap, k, v);
    TwoJoined(SetEntry(k, v, 0), DeleteEntry(k));
    FoldSnoc(cap, log, DeleteEntry(k));
    assert (log + [DeleteEntry(k)])[..1] == log;
  }

  lemma LoggedRecoverable(cfg: Config, s: St, file: string)
    requires Light(cfg.capacity, s.log) && Loggable(s.log) && file == EncodeAll(s.log)
    requires Live(s.items) == Fold(cfg.capacity, s.log) && Drift(s) == 0 && Sized(s.items)
    ensures Recoverable(cfg, s, file)
  {
    RoundTrip(s.log);
  }

  /** What the source of a finished migration has become. */
  lemma SourceRecoverable(cfg: Config, s: St, k: Key, v: Bytes, file: string)
    requires Fitting(cfg, v) && s.items == map[] && s.used == 0
    requires s.log == [SetEntry(k, v, 0), DeleteEntry(k)] && file == EncodeAll(s.log)
    requires Carried(SetEntry(k, v, 0)) && Carried(DeleteEntry(k))
    ensures Recoverable(cfg, s, file)
  {
    SetThenDeleteIsLight(cfg.capacity, k, v);
    LoggedRecoverable(cfg, s, file);
  }

  /** And the target. */
  lemma TargetRecoverable(cfg: Config, s: St, k: Key, v: Bytes, file: string)
    requires Fitting(cfg, v) && s.items == map[k := Item(v, |v|, 1)] && s.used == |v|
    requires s.log == [SetEntry(k, v, 0)] && file == EncodeAll(s.log) && Carried(SetEntry(k, v, 0))
    ensures Recoverable(cfg, s, file)
  {
    SetIsLight(cfg.capacity, k, v);
    SingleTotal(k, Item(v, |v|, 1));
    assert Live(s.items) == map[k := v];
    LoggedRecoverable(cfg, s, file);
  }

  lemma Carries(k: Key, v: Bytes)
    requires k == "k" && v == "1"
    ensures Carried(SetEntry(k, v, 0)) && Carried(DeleteEntry(k))
  {
    assert Escape("") == "";
    assert Escape(v) == "1";
    assert D.Print(0) == "0";
  }

  lemma MovedAndReopened(cfg: Config, top: C.Topology, h: History, k: Key, v: Bytes, gates: seq<B.Gate>,
                         files: seq<string>)
    requires Fitting(cfg, v) && top == TwoNodes(cfg, Silence(), Silence()) && C.WellFormed(top, h.c)
    requires h.c.nodes[0].items == map[] && h.c.nodes[0].used == 0
    requires h.c.nodes[1].items == map[k := Item(v, |v|, 1)] && h.c.nodes[1].used == |v|
    requires h.c.nodes[0].log == [SetEntry(k, v, 0), DeleteEntry(k)] && h.c.nodes[1].log == [SetEntry(k, v, 0)]
    requires Carried(SetEntry(k, v, 0)) && Carried(DeleteEntry(k))
    requires files == [EncodeAll(h.c.nodes[0].log), EncodeAll(h.c.nodes[1].log)] && |gates| == 2
    ensures forall i :: 0 <= i < |files| ==> ReadFile(files[i]).Ok?
    ensures var c' := Reopened(top, gates, files);
            |c'.nodes| == 2 && C.Lookup(top, c', k) == None && k in c'.nodes[1].items && c'.nodes[1].items[k].value == v
  {
    SourceRecoverable(cfg, h.c.nodes[0], k, v, files[0]);
    TargetRecoverable(cfg, h.c.nodes[1], k, v, files[1]);
    ReopenedSame(top, h.c, top, gates, files);
    var c' := Reopened(top, gates, files);
    LiveAt(h.c.nodes[0].items, c'.nodes[0].items, k);
    LiveAt(h.c.nodes[1].items, c'.nodes[1].items, k);
    RoutedToFirst(cfg, Silence(), Silence(), k);
  }

  /** Two LRU nodes of eight bytes, without faults. A key is set, migrated, and its clients redirected; a
      Get returns its value. Then the cluster restarts: the second node holds the key, and a Get misses. */
  lemma ForgottenOverride(cfg: Config, top: C.Topology, gate: B.Gate, k: Key, v: Bytes, gates: seq<B.Gate>)
    returns (h1: History, h2: History, h3: History, h4: History, h5: History, files: seq<string>)
    requires cfg == Node(8, Lru) && top == TwoNodes(cfg, Silence(), Silence()) && k == "k" && v == "1" && |gates| == 2
    ensures Fresh(top, Start(gate)) && Follows(top, Start(gate), Client(C.Set(k, v, 0)), h1)
    ensures Follows(top, h1, Fetch(0, k, 0, 1), h2) && Follows(top, h2, Release(0), h3)
    ensures Follows(top, h3, Deliver(0), h4) && Follows(top, h4, Redirect(0), h5)
    ensures C.WellFormed(top, h5.c) && C.Lookup(top, h5.c, k) == Some(v)
    ensures |files| == 2 && files == [EncodeAll(h5.c.nodes[0].log), EncodeAll(h5.c.nodes[1].log)]
    ensures forall i :: 0 <= i < |files| ==> ReadFile(files[i]).Ok?
    ensures var c' := Reopened(top, gates, files);
            |c'.nodes| == 2 && C.Lookup(top, c', k) == None && k in c'.nodes[1].items && c'.nodes[1].items[k].value == v
  {
    h1, h2, h3, h4 := SetAndMoved(cfg, gate, k, v);
    h5 := Follow(cfg, h4, k, v);
    files := [EncodeAll(h5.c.nodes[0].log), EncodeAll(h5.c.nodes[1].log)];
    Carries(k, v);
    MovedAndReopened(cfg, top, h5, k, v, gates, files);
  }
}
