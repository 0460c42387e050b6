/**
  Where the keys of a cluster are. A migration reads a key's value, lets the source go of the key,
  stores it at the target, and then its caller sends the key's clients after it; between any two of
  these, clients, background work and other migrations go on. The state of the cluster is sound when
  every key is where it was last moved to, or else where it is routed to, and holds the value last
  accepted for it and not deleted since. Each step keeps it sound exactly when it does not break it,
  and what breaks it can be told before the step.
 */
module ClusterCoherence {
  import opened Prelude
  import opened PolicyHistory
  import opened Breaker
  import opened CacheSpec
  import opened CacheAccounting
  import opened CacheRecovery
  import opened C = ClusterSpec
  import P = CachePolicyLaws

  // ----- steps

  /** How far a migration has got: the value has been read; the source has let go of the key; the
      target has stored it, and the key's clients have still to be sent after it. */
  datatype Phase = Fetched(value: Bytes) | Released(value: Bytes) | Moved

  datatype Migration = Migration(key: Key, src: nat, dst: nat, phase: Phase) {
    /** The key's clients are to be sent to dst. */
    predicate Awaits(k: Key) {
      key == k && phase.Moved?
    }
  }

  datatype History = History(c: Cluster, moves: map<nat, Migration>, latest: map<Key, Bytes>)

  datatype Step =
    | Client(op: ClientOp)
    | Fetch(id: nat, key: Key, src: nat, dst: nat)
    | Release(id: nat)
    | Deliver(id: nat)
    | Redirect(id: nat)
    | Background(node: nat, work: Op)

  /** Any number of migrations may be under way, of any keys; background work is not a Set. */
  ghost predicate Enabled(top: Topology, h: History, step: Step) {
    && WellFormed(top, h.c)
    && match step
       case Client(_) => true
       case Fetch(id, key, src, dst) =>
         id !in h.moves && key != "" && src < |h.c.nodes| && dst < |h.c.nodes| && src != dst
       case Release(id) => id in h.moves && h.moves[id].phase.Fetched? && h.moves[id].src < |h.c.nodes|
       case Deliver(id) => id in h.moves && h.moves[id].phase.Released? && h.moves[id].dst < |h.c.nodes|
       case Redirect(id) => id in h.moves && h.moves[id].phase.Moved? && h.moves[id].dst < |h.c.nodes|
       case Background(node, work) => node < |h.c.nodes| && !work.SetOp?
  }

  function AfterFetch(h: History, id: nat, key: Key, src: nat, dst: nat): History
    requires src < |h.c.nodes|
  {
    var s := h.c.nodes[src];
    History(Put(h.c, src, Look(s, key)),
            if key in s.items then h.moves[id := Migration(key, src, dst, Fetched(s.items[key].value))] else h.moves,
            h.latest)
  }

  function AfterRelease(top: Topology, h: History, id: nat, m: Migration): History
    requires WellFormed(top, h.c) && m.src < |h.c.nodes| && m.phase.Fetched?
  {
    var (gone, deleted) := CacheSpec.Delete(top.cfgs[m.src], top.worlds[m.src], h.c.nodes[m.src], m.key);
    History(Put(h.c, m.src, gone),
            if deleted == Done then h.moves[id := m.(phase := Released(m.phase.value))] else h.moves - {id},
            h.latest)
  }

  ghost function AfterDeliver(top: Topology, h: History, id: nat, m: Migration): History
    requires WellFormed(top, h.c) && m.dst < |h.c.nodes| && m.phase.Released?
  {
    var (held, stored) :=
      CacheSpec.Set(top.cfgs[m.dst], top.worlds[m.dst], h.c.nodes[m.dst], m.key, m.phase.value, 0);
    History(Put(h.c, m.dst, held),
            if stored == Done then h.moves[id := m.(phase := Moved)] else h.moves - {id},
            h.latest)
  }

  /** The guards a Set passes before it inserts: the log takes it, it is not too large, and room can
      be made. */
  ghost predicate Accepts(cfg: Config, w: World, s: St, k: Key, v: Bytes, ttl: int) {
    && P.Written(cfg, w(s.t))
    && |v| <= cfg.capacity
    && Freed(cfg, MakeRoom(cfg, w, Append(cfg, w, s, SetEntry(k, v, ttl)).0, k, v), |v|)
  }

  /** The store call a Set makes right after inserting. */
  ghost predicate Stores(cfg: Config, w: World, s: St, k: Key, v: Bytes, ttl: int) {
    w(MakeRoom(cfg, w, Append(cfg, w, s, SetEntry(k, v, ttl)).0, k, v).s.t).stored
  }

  /** The key is still live after the Set's own proactive pass, if that runs. SetKeepsExactly says when. */
  ghost predicate Stays(cfg: Config, w: World, s: St, k: Key, v: Bytes, ttl: int) {
    k in CacheSpec.Set(cfg, w, s, k, v, ttl).0.items
  }

  lemma SetOutcome(cfg: Config, w: World, s: St, k: Key, v: Bytes, ttl: int)
    ensures var outcome := CacheSpec.Set(cfg, w, s, k, v, ttl).1;
            && (outcome == Done <==> Accepts(cfg, w, s, k, v, ttl) && Stores(cfg, w, s, k, v, ttl))
            && (outcome == StoreFailed <==> Accepts(cfg, w, s, k, v, ttl) && !Stores(cfg, w, s, k, v, ttl))
  {
  }

  /** The node a Set is routed to accepts it. */
  ghost predicate Accepted(top: Topology, c: Cluster, op: ClientOp)
    requires WellFormed(top, c)
  {
    RouteInRange(top, c.overrides, op.key);
    match Route(top, c.overrides, op.key)
    case None => false
    case Some(i) => op.Set? && Accepts(top.cfgs[i], top.worlds[i], c.nodes[i], op.key, op.value, op.ttl)
  }

  /** The log of the node a Delete is routed to takes it. */
  ghost predicate Erased(top: Topology, c: Cluster, op: ClientOp)
    requires WellFormed(top, c)
  {
    RouteInRange(top, c.overrides, op.key);
    match Route(top, c.overrides, op.key)
    case None => false
    case Some(i) => op.Delete? && P.Written(top.cfgs[i], top.worlds[i](c.nodes[i].t))
  }

  /** The value of the last Set of each key that was accepted, unless it has been deleted since. */
  ghost function Recorded(top: Topology, c: Cluster, op: ClientOp, latest: map<Key, Bytes>): map<Key, Bytes>
    requires WellFormed(top, c)
  {
    if Accepted(top, c, op) then latest[op.key := op.value]
    else if Erased(top, c, op) then latest - {op.key}
    else latest
  }

  ghost function After(top: Topology, h: History, step: Step): History
    requires Enabled(top, h, step)
  {
    match step
    case Client(op) => History(Serve(top, h.c, op), h.moves, Recorded(top, h.c, op, h.latest))
    case Fetch(id, key, src, dst) => AfterFetch(h, id, key, src, dst)
    case Release(id) => AfterRelease(top, h, id, h.moves[id])
    case Deliver(id) => AfterDeliver(top, h, id, h.moves[id])
    case Redirect(id) =>
      History(Reroute(h.c, h.moves[id].key, top.ids[h.moves[id].dst]), h.moves - {id}, h.latest)
    case Background(i, o) => h.(c := Put(h.c, i, Do(top.cfgs[i], top.worlds[i], h.c.nodes[i], o)))
  }

  // ----- where keys are

  /** Where the key should be: where it has been moved to by every migration whose clients have still to
      be redirected, or where it is routed to if there is none. */
  ghost predicate Placed(top: Topology, h: History, k: Key, i: nat) {
    && (forall id :: id in h.moves && h.moves[id].Awaits(k) ==> h.moves[id].dst == i)
    && ((forall id :: id in h.moves ==> !h.moves[id].Awaits(k)) ==> Route(top, h.c.overrides, k) == Some(i))
  }

  ghost predicate Coherent(top: Topology, h: History) {
    forall i, k :: 0 <= i < |h.c.nodes| && k in h.c.nodes[i].items ==> Placed(top, h, k, i)
  }

  predicate UpToDate(latest: map<Key, Bytes>, k: Key, v: Bytes) {
    k in latest && latest[k] == v
  }

  /** Every live item holds the value last accepted for its key, and not deleted since. */
  ghost predicate Current(c: Cluster, latest: map<Key, Bytes>) {
    forall i, k :: 0 <= i < |c.nodes| && k in c.nodes[i].items ==> UpToDate(latest, k, c.nodes[i].items[k].value)
  }

  ghost predicate Sound(top: Topology, h: History) {
    Coherent(top, h) && Current(h.c, h.latest)
  }

  ghost predicate Nowhere(c: Cluster, k: Key) {
    forall i :: 0 <= i < |c.nodes| ==> k !in c.nodes[i].items
  }

  /** A node other than i holds the key. */
  ghost predicate HeldElsewhere(c: Cluster, k: Key, i: nat) {
    exists j :: 0 <= j < |c.nodes| && j != i && k in c.nodes[j].items
  }

  /** The key's clients are to be sent to another node than i. */
  ghost predicate AwaitedElsewhere(h: History, k: Key, i: nat) {
    exists id :: id in h.moves && h.moves[id].Awaits(k) && h.moves[id].dst != i
  }

  // ----- what breaks it

  ghost predicate Stale(s: St, k: Key, v: Bytes) {
    k in s.items && s.items[k].value != v
  }

  /** A Set of a key that has been moved to another node than the one the Set is routed to: it is
      accepted there, and stays live or leaves another value where the key is. */
  ghost predicate Overtakes(h: History, cfg: Config, w: World, i: nat, k: Key, v: Bytes, ttl: int)
    requires i < |h.c.nodes|
  {
    && AwaitedElsewhere(h, k, i) && Accepts(cfg, w, h.c.nodes[i], k, v, ttl)
    && (|| Stays(cfg, w, h.c.nodes[i], k, v, ttl)
        || exists j :: 0 <= j < |h.c.nodes| && Stale(h.c.nodes[j], k, v))
  }

  /** A Delete of a key that is somewhere else than the Delete is routed to, and stays there. */
  ghost predicate Misses(h: History, cfg: Config, w: World, i: nat, k: Key)
    requires i < |h.c.nodes|
  {
    P.Written(cfg, w(h.c.nodes[i].t)) && HeldElsewhere(h.c, k, i)
  }

  ghost predicate ClientBreaks(top: Topology, h: History, op: ClientOp)
    requires WellFormed(top, h.c)
  {
    RouteInRange(top, h.c.overrides, op.key);
    match Route(top, h.c.overrides, op.key)
    case None => false
    case Some(i) =>
      match op
      case Set(k, v, ttl) => Overtakes(h, top.cfgs[i], top.worlds[i], i, k, v, ttl)
      case Get(_) => false
      case Delete(k) => Misses(h, top.cfgs[i], top.worlds[i], i, k)
  }

  /** The target accepts the key. If its store call succeeds, the key's clients will be sent there:
      then no other node may hold the key, and if it stays it must be what was last accepted, and not be
      expected elsewhere. If the store call fails nobody will be sent: then it must be what was last
      accepted and belong there as things are. */
  ghost predicate Misdelivers(top: Topology, h: History, m: Migration)
    requires WellFormed(top, h.c) && m.dst < |h.c.nodes| && m.phase.Released?
  {
    var cfg, w, s, k, v := top.cfgs[m.dst], top.worlds[m.dst], h.c.nodes[m.dst], m.key, m.phase.value;
    && Accepts(cfg, w, s, k, v, 0)
    && if Stores(cfg, w, s, k, v, 0) then
         || HeldElsewhere(h.c, k, m.dst)
         || (Stays(cfg, w, s, k, v, 0) && (!UpToDate(h.latest, k, v) || AwaitedElsewhere(h, k, m.dst)))
       else !UpToDate(h.latest, k, v) || !Placed(top, h, k, m.dst)
  }

  ghost predicate Breaks(top: Topology, h: History, step: Step)
    requires Enabled(top, h, step)
  {
    match step
    case Client(op) => ClientBreaks(top, h, op)
    case Deliver(id) => Misdelivers(top, h, h.moves[id])
    case _ => false
  }

  // ----- single nodes

  /** s' holds nothing s did not hold. */
  ghost predicate Within(s: St, s': St) {
    forall k :: k in s'.items ==> k in s.items && s'.items[k].value == s.items[k].value
  }

  lemma NotSetWithin(cfg: Config, w: World, s: St, op: Op)
    requires !op.SetOp?
    ensures Within(s, Do(cfg, w, s, op))
  {
    match op
    case GetOp(k) => LookSettles(s, k);
    case DeleteOp(k) => DeleteLockedSettles(cfg, w, s, k);
    case AskOp => AskSettles(w, s, Predict(s.gate, Request(s.items != map[], w(s.t).call)).0);
    case WorkerOp => WorkerSettles(cfg, w, s);
  }

  /** What a Set of a key does to a node: only that key can be new. */
  ghost predicate MayAdd(s: St, s': St, k: Key, v: Bytes, accepted: bool) {
    && (forall j :: j in s'.items && j != k ==> j in s.items && s'.items[j].value == s.items[j].value)
    && (k in s'.items ==> if accepted then s'.items[k].value == v
                          else k in s.items && s'.items[k].value == s.items[k].value)
  }

  /** After a Set only its key can be new, with its value exactly when the node accepted it; a Set
      whose store call fails leaves it live. */
  lemma SetWithin(cfg: Config, w: World, s: St, k: Key, v: Bytes, ttl: int)
    ensures var (s', outcome) := CacheSpec.Set(cfg, w, s, k, v, ttl);
            && MayAdd(s, s', k, v, Accepts(cfg, w, s, k, v, ttl))
            && (outcome == StoreFailed ==> k in s'.items)
  {
    var (a, ok) := Append(cfg, w, s, SetEntry(k, v, ttl));
    AppendSettles(cfg, w, s, SetEntry(k, v, ttl));
    if ok && |v| <= cfg.capacity {
      var e := MakeRoom(cfg, w, a, k, v);
      MakeRoomSettles(cfg, w, a, k, v);
      if Freed(cfg, e, |v|) {
        CommitSettles(cfg, w, e.s, k, v);
        YieldSettles(w, Insert(e.s, k, v));
      }
    }
  }

  lemma DeleteWithin(cfg: Config, w: World, s: St, k: Key)
    ensures var (gone, outcome) := CacheSpec.Delete(cfg, w, s, k);
            && Within(s, gone) && (k in gone.items ==> outcome == AppendFailed && k in s.items)
            && (outcome == AppendFailed <==> !P.Written(cfg, w(s.t)))
  {
    DeleteLockedSettles(cfg, w, s, k);
  }

  // ----- what a step does not touch

  /** The same migrations await redirection. */
  ghost predicate SameAwaited(moves: map<nat, Migration>, moves': map<nat, Migration>) {
    && (forall id :: id in moves && moves[id].phase.Moved? ==> id in moves' && moves'[id] == moves[id])
    && (forall id :: id in moves' && moves'[id].phase.Moved? ==> id in moves && moves[id] == moves'[id])
  }

  lemma PlacedSame(top: Topology, h: History, h': History, k: Key, i: nat)
    requires SameAwaited(h.moves, h'.moves) && h'.c.overrides == h.c.overrides
    ensures Placed(top, h', k, i) <==> Placed(top, h, k, i)
  {
  }

  /** A node that only loses items, or what a migration that awaits nothing does, breaks nothing. */
  lemma PutWithin(top: Topology, h: History, i: nat, s: St, moves: map<nat, Migration>)
    requires i < |h.c.nodes| && Within(h.c.nodes[i], s) && Sound(top, h) && SameAwaited(h.moves, moves)
    ensures Sound(top, History(Put(h.c, i, s), moves, h.latest))
  {
    var h' := History(Put(h.c, i, s), moves, h.latest);
    forall j, k | 0 <= j < |h'.c.nodes| && k in h'.c.nodes[j].items
      ensures Placed(top, h', k, j) && UpToDate(h'.latest, k, h'.c.nodes[j].items[k].value)
    {
      assert k in h.c.nodes[j].items && Placed(top, h, k, j);
      PlacedSame(top, h, h', k, j);
    }
  }

  // ----- clients

  /** A Set at the node the key belongs to. */
  lemma PutPlaced(top: Topology, h: History, i: nat, s: St, k: Key, v: Bytes)
    requires i < |h.c.nodes| && MayAdd(h.c.nodes[i], s, k, v, true) && Sound(top, h) && Placed(top, h, k, i)
    ensures Sound(top, h.(c := Put(h.c, i, s), latest := h.latest[k := v]))
  {
    var h' := h.(c := Put(h.c, i, s), latest := h.latest[k := v]);
    forall n, j | 0 <= n < |h'.c.nodes| && j in h'.c.nodes[n].items
      ensures Placed(top, h', j, n) && UpToDate(h'.latest, j, h'.c.nodes[n].items[j].value)
    {
      if j != k || n != i {
        assert j in h.c.nodes[n].items && Placed(top, h, j, n);
      }
      assert Placed(top, h, j, n);
    }
  }

  lemma StaleRemains(c: Cluster, i: nat, s: St, k: Key, v: Bytes, j: nat, latest: map<Key, Bytes>)
    requires i < |c.nodes| && j < |c.nodes| && i != j && Stale(c.nodes[j], k, v)
    ensures !Current(Put(c, i, s), latest[k := v])
  {
    var c', latest' := Put(c, i, s), latest[k := v];
    assert c'.nodes[j] == c.nodes[j] && k in c'.nodes[j].items && latest'[k] == v;
  }

  /** A Set whose key does not stay, and leaves no other value behind. */
  lemma PutNowhere(top: Topology, h: History, i: nat, s: St, k: Key, v: Bytes)
    requires i < |h.c.nodes| && MayAdd(h.c.nodes[i], s, k, v, true) && Sound(top, h)
    requires k !in s.items && forall j :: 0 <= j < |h.c.nodes| ==> !Stale(h.c.nodes[j], k, v)
    ensures Sound(top, h.(c := Put(h.c, i, s), latest := h.latest[k := v]))
  {
    var h' := h.(c := Put(h.c, i, s), latest := h.latest[k := v]);
    forall n, j | 0 <= n < |h'.c.nodes| && j in h'.c.nodes[n].items
      ensures Placed(top, h', j, n) && UpToDate(h'.latest, j, h'.c.nodes[n].items[j].value)
    {
      assert j in h.c.nodes[n].items && Placed(top, h, j, n);
      assert !Stale(h.c.nodes[n], k, v);
    }
  }

  /** A Set at another node than the one the key belongs to. */
  lemma PutElsewhere(top: Topology, h: History, i: nat, s: St, k: Key, v: Bytes)
    requires i < |h.c.nodes| && MayAdd(h.c.nodes[i], s, k, v, true) && Sound(top, h) && AwaitedElsewhere(h, k, i)
    ensures Sound(top, h.(c := Put(h.c, i, s), latest := h.latest[k := v])) <==>
            k !in s.items && forall j :: 0 <= j < |h.c.nodes| ==> !Stale(h.c.nodes[j], k, v)
  {
    var h' := h.(c := Put(h.c, i, s), latest := h.latest[k := v]);
    assert !Placed(top, h, k, i) && !Placed(top, h', k, i);
    if k in s.items {
      assert h'.c.nodes[i] == s;
      assert !Coherent(top, h');
    } else if exists j :: 0 <= j < |h.c.nodes| && Stale(h.c.nodes[j], k, v) {
      var j :| 0 <= j < |h.c.nodes| && Stale(h.c.nodes[j], k, v);
      assert Placed(top, h, k, j);
      StaleRemains(h.c, i, s, k, v, j, h.latest);
    } else {
      PutNowhere(top, h, i, s, k, v);
    }
  }

  lemma SetKeeps(top: Topology, h: History, i: nat, op: ClientOp)
    requires WellFormed(top, h.c) && Sound(top, h) && op.Set? && Route(top, h.c.overrides, op.key) == Some(i)
    requires i < |h.c.nodes|
    ensures Sound(top, After(top, h, Client(op))) <==> !ClientBreaks(top, h, op)
  {
    var cfg, w, s := top.cfgs[i], top.worlds[i], h.c.nodes[i];
    var s' := CacheSpec.Set(cfg, w, s, op.key, op.value, op.ttl).0;
    var accepted := Accepts(cfg, w, s, op.key, op.value, op.ttl);
    SetWithin(cfg, w, s, op.key, op.value, op.ttl);
    assert After(top, h, Client(op)) ==
           h.(c := Put(h.c, i, s'), latest := if accepted then h.latest[op.key := op.value] else h.latest);
    if !accepted {
      PutWithin(top, h, i, s', h.moves);
    } else if AwaitedElsewhere(h, op.key, i) {
      PutElsewhere(top, h, i, s', op.key, op.value);
    } else {
      PutPlaced(top, h, i, s', op.key, op.value);
    }
  }

  lemma Forgotten(top: Topology, h: History, k: Key)
    requires Sound(top, h)
    ensures Sound(top, h.(latest := h.latest - {k})) <==> Nowhere(h.c, k)
  {
    var h' := h.(latest := h.latest - {k});
    if Nowhere(h.c, k) {
      forall i, j | 0 <= i < |h'.c.nodes| && j in h'.c.nodes[i].items
        ensures Placed(top, h', j, i) && UpToDate(h'.latest, j, h'.c.nodes[i].items[j].value)
      {
        assert Placed(top, h, j, i);
      }
    }
  }

  lemma GoneFrom(c: Cluster, i: nat, gone: St, k: Key)
    requires i < |c.nodes| && k !in gone.items
    ensures Nowhere(Put(c, i, gone), k) <==> !HeldElsewhere(c, k, i)
  {
    if HeldElsewhere(c, k, i) {
      var j :| 0 <= j < |c.nodes| && j != i && k in c.nodes[j].items;
      assert Put(c, i, gone).nodes[j] == c.nodes[j];
    }
  }

  /** A recorded Delete is sound exactly when nobody else holds the key. */
  lemma DeleteKeeps(top: Topology, h: History, i: nat, k: Key)
    requires WellFormed(top, h.c) && Sound(top, h) && Route(top, h.c.overrides, k) == Some(i) && i < |h.c.nodes|
    ensures Sound(top, After(top, h, Client(C.Delete(k)))) <==> !ClientBreaks(top, h, C.Delete(k))
  {
    var cfg, w, s := top.cfgs[i], top.worlds[i], h.c.nodes[i];
    var gone := CacheSpec.Delete(cfg, w, s, k).0;
    DeleteWithin(cfg, w, s, k);
    PutWithin(top, h, i, gone, h.moves);
    if P.Written(cfg, w(s.t)) {
      Forgotten(top, h.(c := Put(h.c, i, gone)), k);
      GoneFrom(h.c, i, gone, k);
    }
  }

  lemma ServeKeeps(top: Topology, h: History, op: ClientOp)
    requires WellFormed(top, h.c) && Sound(top, h)
    ensures Sound(top, After(top, h, Client(op))) <==> !ClientBreaks(top, h, op)
  {
    RouteInRange(top, h.c.overrides, op.key);
    if Route(top, h.c.overrides, op.key).Some? {
      var i := Route(top, h.c.overrides, op.key).value;
      match op
      case Set(_, _, _) => SetKeeps(top, h, i, op);
      case Get(k) =>
        NotSetWithin(top.cfgs[i], top.worlds[i], h.c.nodes[i], GetOp(k));
        PutWithin(top, h, i, Look(h.c.nodes[i], k), h.moves);
      case Delete(k) => DeleteKeeps(top, h, i, k);
    }
  }

  // ----- a migration's steps

  lemma FetchKeeps(top: Topology, h: History, id: nat, key: Key, src: nat, dst: nat)
    requires Enabled(top, h, Fetch(id, key, src, dst)) && Sound(top, h)
    ensures Sound(top, After(top, h, Fetch(id, key, src, dst)))
  {
    var h' := AfterFetch(h, id, key, src, dst);
    NotSetWithin(top.cfgs[src], top.worlds[src], h.c.nodes[src], GetOp(key));
    assert SameAwaited(h.moves, h'.moves);
    PutWithin(top, h, src, Look(h.c.nodes[src], key), h'.moves);
  }

  lemma ReleaseKeeps(top: Topology, h: History, id: nat)
    requires Enabled(top, h, Release(id)) && Sound(top, h)
    ensures Sound(top, After(top, h, Release(id)))
  {
    var m, h' := h.moves[id], AfterRelease(top, h, id, h.moves[id]);
    DeleteWithin(top.cfgs[m.src], top.worlds[m.src], h.c.nodes[m.src], m.key);
    assert SameAwaited(h.moves, h'.moves);
    PutWithin(top, h, m.src, h'.c.nodes[m.src], h'.moves);
  }

  /** What a delivery leaves: the target with the key or without, and the migration under way or over. */
  ghost function Delivered(h: History, id: nat, m: Migration, held: St, reported: bool): History
    requires m.dst < |h.c.nodes|
  {
    History(Put(h.c, m.dst, held), if reported then h.moves[id := m.(phase := Moved)] else h.moves - {id}, h.latest)
  }

  /** A delivery that nobody is told of. */
  lemma UnreportedKeeps(top: Topology, h: History, id: nat, m: Migration, held: St, v: Bytes)
    requires id in h.moves && h.moves[id] == m && m.phase.Released? && m.dst < |h.c.nodes| && Sound(top, h)
    requires MayAdd(h.c.nodes[m.dst], held, m.key, v, true) && m.key in held.items
    ensures Sound(top, Delivered(h, id, m, held, false)) <==>
            UpToDate(h.latest, m.key, v) && Placed(top, h, m.key, m.dst)
  {
    var h' := Delivered(h, id, m, held, false);
    assert SameAwaited(h.moves, h'.moves) && h'.c.nodes[m.dst] == held;
    PlacedSame(top, h, h', m.key, m.dst);
    if UpToDate(h.latest, m.key, v) && Placed(top, h, m.key, m.dst) {
      forall i, k | 0 <= i < |h'.c.nodes| && k in h'.c.nodes[i].items
        ensures Placed(top, h', k, i) && UpToDate(h'.latest, k, h'.c.nodes[i].items[k].value)
      {
        if k != m.key || i != m.dst {
          assert k in h.c.nodes[i].items && Placed(top, h, k, i);
        }
        PlacedSame(top, h, h', k, i);
      }
    }
  }

  /** Where a key belongs once it has been moved, and its clients have still to follow. */
  lemma PlacedMoved(top: Topology, h: History, id: nat, m: Migration, held: St, k: Key, i: nat)
    requires id in h.moves && h.moves[id] == m && m.phase.Released? && m.dst < |h.c.nodes|
    ensures Placed(top, Delivered(h, id, m, held, true), k, i) <==>
            if k == m.key then i == m.dst && !AwaitedElsewhere(h, k, m.dst) else Placed(top, h, k, i)
  {
    var h' := Delivered(h, id, m, held, true);
    assert h'.moves[id].Awaits(m.key) && h'.moves[id].dst == m.dst;
    assert forall n :: n in h.moves && n != id ==> h'.moves[n] == h.moves[n];
    assert !h.moves[id].Awaits(k);
    if k == m.key && AwaitedElsewhere(h, k, m.dst) {
      var n :| n in h.moves && h.moves[n].Awaits(k) && h.moves[n].dst != m.dst;
      assert h'.moves[n].Awaits(k);
    }
  }

  lemma OthersStay(top: Topology, h: History, id: nat, m: Migration, held: St, v: Bytes)
    requires id in h.moves && h.moves[id] == m && m.phase.Released? && m.dst < |h.c.nodes| && Sound(top, h)
    requires MayAdd(h.c.nodes[m.dst], held, m.key, v, true) && !HeldElsewhere(h.c, m.key, m.dst)
    requires m.key in held.items ==> UpToDate(h.latest, m.key, v) && !AwaitedElsewhere(h, m.key, m.dst)
    ensures Sound(top, Delivered(h, id, m, held, true))
  {
    var h' := Delivered(h, id, m, held, true);
    forall i, k | 0 <= i < |h'.c.nodes| && k in h'.c.nodes[i].items
      ensures Placed(top, h', k, i) && UpToDate(h'.latest, k, h'.c.nodes[i].items[k].value)
    {
      PlacedMoved(top, h, id, m, held, k, i);
      if k == m.key {
        assert i == m.dst;
      } else {
        assert k in h.c.nodes[i].items && Placed(top, h, k, i);
      }
    }
  }

  /** A delivery whose clients will follow. */
  lemma ReportedKeeps(top: Topology, h: History, id: nat, m: Migration, held: St, v: Bytes)
    requires id in h.moves && h.moves[id] == m && m.phase.Released? && m.dst < |h.c.nodes| && Sound(top, h)
    requires MayAdd(h.c.nodes[m.dst], held, m.key, v, true)
    ensures Sound(top, Delivered(h, id, m, held, true)) <==>
            && !HeldElsewhere(h.c, m.key, m.dst)
            && (m.key in held.items ==> UpToDate(h.latest, m.key, v) && !AwaitedElsewhere(h, m.key, m.dst))
  {
    var h' := Delivered(h, id, m, held, true);
    assert h'.c.nodes[m.dst] == held;
    PlacedMoved(top, h, id, m, held, m.key, m.dst);
    if HeldElsewhere(h.c, m.key, m.dst) {
      var j :| 0 <= j < |h.c.nodes| && j != m.dst && m.key in h.c.nodes[j].items;
      assert h'.c.nodes[j] == h.c.nodes[j];
      PlacedMoved(top, h, id, m, held, m.key, j);
    } else if m.key in held.items ==> UpToDate(h.latest, m.key, v) && !AwaitedElsewhere(h, m.key, m.dst) {
      OthersStay(top, h, id, m, held, v);
    }
  }

  lemma DeliverKeeps(top: Topology, h: History, id: nat)
    requires Enabled(top, h, Deliver(id)) && Sound(top, h)
    ensures Sound(top, After(top, h, Deliver(id))) <==> !Misdelivers(top, h, h.moves[id])
  {
    var m := h.moves[id];
    var cfg, w, s, v := top.cfgs[m.dst], top.worlds[m.dst], h.c.nodes[m.dst], m.phase.value;
    var (held, outcome) := CacheSpec.Set(cfg, w, s, m.key, v, 0);
    SetWithin(cfg, w, s, m.key, v, 0);
    SetOutcome(cfg, w, s, m.key, v, 0);
    assert After(top, h, Deliver(id)) == Delivered(h, id, m, held, outcome == Done);
    if outcome == Done {
      ReportedKeeps(top, h, id, m, held, v);
    } else if outcome == StoreFailed {
      UnreportedKeeps(top, h, id, m, held, v);
    } else {
      assert SameAwaited(h.moves, h.moves - {id});
      PutWithin(top, h, m.dst, held, h.moves - {id});
    }
  }

  lemma DistinctIds(top: Topology, i: nat)
    requires top.Valid() && i < |top.ids|
    ensures FindId(top.ids, top.ids[i]) == Some(i)
  {
  }

  lemma StaysPlaced(top: Topology, h: History, id: nat, k: Key, i: nat)
    requires Enabled(top, h, Redirect(id)) && Placed(top, h, k, i)
    ensures Placed(top, After(top, h, Redirect(id)), k, i)
  {
    var m, h' := h.moves[id], After(top, h, Redirect(id));
    DistinctIds(top, m.dst);
    assert forall n :: n in h'.moves ==> n in h.moves && h'.moves[n] == h.moves[n];
    if k != m.key && forall n :: n in h'.moves ==> !h'.moves[n].Awaits(k) {
      forall n | n in h.moves ensures !h.moves[n].Awaits(k) {
        assert n == id || n in h'.moves;
      }
    }
  }

  lemma RedirectKeeps(top: Topology, h: History, id: nat)
    requires Enabled(top, h, Redirect(id)) && Sound(top, h)
    ensures Sound(top, After(top, h, Redirect(id)))
  {
    var h' := After(top, h, Redirect(id));
    assert Current(h'.c, h'.latest);
    forall i, k | 0 <= i < |h'.c.nodes| && k in h'.c.nodes[i].items
      ensures Placed(top, h', k, i)
    {
      assert Placed(top, h, k, i);
      StaysPlaced(top, h, id, k, i);
    }
  }

  // ----- whole runs

  /** A step keeps the cluster sound exactly when it does not break it. */
  lemma StepKeeps(top: Topology, h: History, step: Step)
    requires Enabled(top, h, step) && Sound(top, h)
    ensures Sound(top, After(top, h, step)) <==> !Breaks(top, h, step)
  {
    match step
    case Client(op) => ServeKeeps(top, h, op);
    case Fetch(id, key, src, dst) => FetchKeeps(top, h, id, key, src, dst);
    case Release(id) => ReleaseKeeps(top, h, id);
    case Deliver(id) => DeliverKeeps(top, h, id);
    case Redirect(id) => RedirectKeeps(top, h, id);
    case Background(i, o) =>
      NotSetWithin(top.cfgs[i], top.worlds[i], h.c.nodes[i], o);
      PutWithin(top, h, i, Do(top.cfgs[i], top.worlds[i], h.c.nodes[i], o), h.moves);
  }

  ghost predicate Follows(top: Topology, h: History, step: Step, h': History) {
    Enabled(top, h, step) && h' == After(top, h, step)
  }

  /** Each state follows from the one before by an enabled step. */
  ghost predicate IsRun(top: Topology, run: seq<History>, steps: seq<Step>) {
    && |run| == |steps| + 1
    && forall n :: 0 <= n < |steps| ==> Follows(top, run[n], steps[n], run[n + 1])
  }

  /** None of the first n steps breaks anything. */
  ghost predicate Unbroken(top: Topology, run: seq<History>, steps: seq<Step>, n: nat)
    requires n <= |steps| < |run|
  {
    forall m :: 0 <= m < n ==> Follows(top, run[m], steps[m], run[m + 1]) && !Breaks(top, run[m], steps[m])
  }

  /** No key is live anywhere, and nothing is under way. */
  ghost predicate Fresh(top: Topology, h: History) {
    && WellFormed(top, h.c) && h.c.overrides == map[] && h.moves == map[] && h.latest == map[]
    && forall i :: 0 <= i < |h.c.nodes| ==> h.c.nodes[i].items == map[]
  }

  lemma FreshIsSound(top: Topology, h: History)
    requires Fresh(top, h)
    ensures Sound(top, h)
  {
  }

  lemma {:induction false} RunSound(top: Topology, run: seq<History>, steps: seq<Step>, n: nat)
    requires IsRun(top, run, steps) && Sound(top, run[0]) && n < |run| && Unbroken(top, run, steps, n)
    ensures Sound(top, run[n])
  {
    if n > 0 {
      RunSound(top, run, steps, n - 1);
      assert Follows(top, run[n - 1], steps[n - 1], run[n]);
      StepKeeps(top, run[n - 1], steps[n - 1]);
    }
  }

  /** In every run of Sets, Gets, Deletes, background deletes and the steps of any number of migrations,
      from a sound state: the cluster is sound in every state if and only if no step breaks it. */
  lemma RunCoherent(top: Topology, run: seq<History>, steps: seq<Step>)
    requires IsRun(top, run, steps) && Sound(top, run[0])
    ensures (forall n :: 0 <= n < |run| ==> Sound(top, run[n])) <==> Unbroken(top, run, steps, |steps|)
  {
    if Unbroken(top, run, steps, |steps|) {
      forall n | 0 <= n < |run| ensures Sound(top, run[n]) {
        RunSound(top, run, steps, n);
      }
    }
    if forall n :: 0 <= n < |run| ==> Sound(top, run[n]) {
      forall n | 0 <= n < |steps|
        ensures Follows(top, run[n], steps[n], run[n + 1]) && !Breaks(top, run[n], steps[n])
      {
        assert Follows(top, run[n], steps[n], run[n + 1]);
        StepKeeps(top, run[n], steps[n]);
      }
    }
  }

  // ----- what clients get

  /** From a sound state a Get hit returns the most recent accepted Set of that key, which has not been
      deleted since; a miss of a key nobody is to be redirected for means that no node holds it. */
  lemma SoundLookup(top: Topology, h: History, k: Key)
    requires WellFormed(top, h.c) && Sound(top, h)
    ensures match Lookup(top, h.c, k)
            case Some(v) => UpToDate(h.latest, k, v)
            case None => (forall id :: id in h.moves ==> !h.moves[id].Awaits(k)) ==> Nowhere(h.c, k)
  {
    RouteInRange(top, h.c.overrides, k);
    if forall id :: id in h.moves ==> !h.moves[id].Awaits(k) {
      forall i | 0 <= i < |h.c.nodes| && k in h.c.nodes[i].items
        ensures Route(top, h.c.overrides, k) == Some(i)
      {
        assert Placed(top, h, k, i);
      }
    }
  }

  /** The same in every state of a run whose steps break nothing. */
  lemma GetReturnsLatest(top: Topology, run: seq<History>, steps: seq<Step>, n: nat, k: Key)
    requires IsRun(top, run, steps) && Sound(top, run[0]) && n < |run| && WellFormed(top, run[n].c)
    requires Unbroken(top, run, steps, n)
    ensures match Lookup(top, run[n].c, k)
            case Some(v) => UpToDate(run[n].latest, k, v)
            case None => (forall id :: id in run[n].moves ==> !run[n].moves[id].Awaits(k)) ==> Nowhere(run[n].c, k)
  {
    RunSound(top, run, steps, n);
    SoundLookup(top, run[n], k);
  }

  /** A Set of k that is accepted. */
  ghost predicate SetsKey(top: Topology, h: History, step: Step, k: Key)
    requires Enabled(top, h, step)
  {
    step.Client? && step.op.key == k && Accepted(top, h.c, step.op)
  }

  lemma ForgottenStep(top: Topology, h: History, step: Step, k: Key)
    requires Enabled(top, h, step) && k !in h.latest && !SetsKey(top, h, step, k)
    ensures k !in After(top, h, step).latest
  {
  }

  lemma {:induction false} StaysForgotten(top: Topology, run: seq<History>, steps: seq<Step>, from: nat, n: nat, k: Key)
    requires IsRun(top, run, steps) && from <= n < |run| && k !in run[from].latest
    requires forall m :: from <= m < n ==>
               Follows(top, run[m], steps[m], run[m + 1]) && !SetsKey(top, run[m], steps[m], k)
    ensures k !in run[n].latest
    decreases n
  {
    if from < n {
      StaysForgotten(top, run, steps, from, n - 1, k);
      assert Follows(top, run[n - 1], steps[n - 1], run[n]);
      ForgottenStep(top, run[n - 1], steps[n - 1], k);
    }
  }

  /** In such a run a recorded Delete is final: Gets miss until the next accepted Set of the key. */
  lemma DeleteIsFinal(top: Topology, run: seq<History>, steps: seq<Step>, from: nat, n: nat, k: Key)
    requires IsRun(top, run, steps) && Sound(top, run[0]) && from < n < |run| && WellFormed(top, run[n].c)
    requires Unbroken(top, run, steps, n)
    requires Follows(top, run[from], steps[from], run[from + 1])
    requires steps[from] == Client(C.Delete(k)) && Erased(top, run[from].c, C.Delete(k))
    requires forall m :: from < m < n ==>
               Follows(top, run[m], steps[m], run[m + 1]) && !SetsKey(top, run[m], steps[m], k)
    ensures Lookup(top, run[n].c, k) == None
  {
    StaysForgotten(top, run, steps, from + 1, n, k);
    GetReturnsLatest(top, run, steps, n, k);
  }

  // ----- what callers can see to

  /** Nobody sets or deletes a key, or migrates it again, while a migration of it is under way; and the
      target's store call does not fail when a key is delivered. */
  ghost predicate Careful(top: Topology, h: History, step: Step)
    requires Enabled(top, h, step)
  {
    match step
    case Client(op) => op.Get? || forall id :: id in h.moves ==> h.moves[id].key != op.key
    case Fetch(_, key, _, _) => forall id :: id in h.moves ==> h.moves[id].key != key
    case Deliver(id) =>
      var m := h.moves[id];
      Stores(top.cfgs[m.dst], top.worlds[m.dst], h.c.nodes[m.dst], m.key, m.phase.value, 0)
    case _ => true
  }

  /** A migration carries the current value, of a key that is still at the source or by now nowhere. */
  ghost predicate OnTrack(top: Topology, h: History, m: Migration) {
    match m.phase
    case Fetched(v) => UpToDate(h.latest, m.key, v) && Placed(top, h, m.key, m.src)
    case Released(v) => UpToDate(h.latest, m.key, v) && Nowhere(h.c, m.key)
    case Moved => true
  }

  ghost predicate Alone(moves: map<nat, Migration>) {
    forall i, j :: i in moves && j in moves && i != j ==> moves[i].key != moves[j].key
  }

  ghost predicate Orderly(top: Topology, h: History) {
    Alone(h.moves) && forall id :: id in h.moves ==> OnTrack(top, h, h.moves[id])
  }

  /** A key no migration is about is where its clients are sent. */
  lemma DeleteFinds(top: Topology, h: History, k: Key)
    requires WellFormed(top, h.c) && Sound(top, h) && forall id :: id in h.moves ==> h.moves[id].key != k
    ensures !ClientBreaks(top, h, C.Delete(k))
  {
    RouteInRange(top, h.c.overrides, k);
    if Route(top, h.c.overrides, k).Some? {
      var i := Route(top, h.c.overrides, k).value;
      forall j | 0 <= j < |h.c.nodes| && k in h.c.nodes[j].items ensures j == i {
        assert Placed(top, h, k, j);
      }
    }
  }

  lemma CarefulBreaksNothing(top: Topology, h: History, step: Step)
    requires Enabled(top, h, step) && Sound(top, h) && Orderly(top, h) && Careful(top, h, step)
    ensures !Breaks(top, h, step)
  {
    match step
    case Client(op) =>
      if op.Delete? {
        DeleteFinds(top, h, op.key);
      }
    case Deliver(id) =>
      assert OnTrack(top, h, h.moves[id]);
    case _ =>
  }

  /** Nothing that matters to a migration of k is different in h'. */
  ghost predicate SameAbout(h: History, h': History, k: Key) {
    && |h'.c.nodes| == |h.c.nodes|
    && (forall i :: 0 <= i < |h.c.nodes| && k in h'.c.nodes[i].items ==> k in h.c.nodes[i].items)
    && (k in h.c.overrides <==> k in h'.c.overrides)
    && (k in h.c.overrides ==> h'.c.overrides[k] == h.c.overrides[k])
    && (k in h.latest ==> k in h'.latest && h'.latest[k] == h.latest[k])
    && (forall id :: id in h.moves && h.moves[id].Awaits(k) ==> id in h'.moves && h'.moves[id] == h.moves[id])
    && (forall id :: id in h'.moves && h'.moves[id].Awaits(k) ==> id in h.moves && h'.moves[id] == h.moves[id])
  }

  lemma KeptOnTrack(top: Topology, h: History, h': History, m: Migration)
    requires SameAbout(h, h', m.key) && OnTrack(top, h, m)
    ensures OnTrack(top, h', m)
  {
  }

  lemma ClientLeaves(top: Topology, h: History, op: ClientOp, k: Key)
    requires WellFormed(top, h.c) && (op.Get? || op.key != k)
    ensures SameAbout(h, After(top, h, Client(op)), k)
  {
    RouteInRange(top, h.c.overrides, op.key);
    if Route(top, h.c.overrides, op.key).Some? {
      var i := Route(top, h.c.overrides, op.key).value;
      if op.Set? {
        SetWithin(top.cfgs[i], top.worlds[i], h.c.nodes[i], op.key, op.value, op.ttl);
      } else {
        NotSetWithin(top.cfgs[i], top.worlds[i], h.c.nodes[i], op.AtNode());
      }
    }
  }

  lemma DeliverLeaves(top: Topology, h: History, id: nat, k: Key)
    requires Enabled(top, h, Deliver(id)) && h.moves[id].key != k
    ensures SameAbout(h, After(top, h, Deliver(id)), k)
  {
    var m := h.moves[id];
    SetWithin(top.cfgs[m.dst], top.worlds[m.dst], h.c.nodes[m.dst], m.key, m.phase.value, 0);
  }

  lemma ReleaseLeaves(top: Topology, h: History, id: nat, k: Key)
    requires Enabled(top, h, Release(id))
    ensures SameAbout(h, After(top, h, Release(id)), k)
  {
    var m := h.moves[id];
    DeleteWithin(top.cfgs[m.src], top.worlds[m.src], h.c.nodes[m.src], m.key);
  }

  lemma FetchLeaves(top: Topology, h: History, id: nat, key: Key, src: nat, dst: nat, k: Key)
    requires Enabled(top, h, Fetch(id, key, src, dst))
    ensures SameAbout(h, After(top, h, Fetch(id, key, src, dst)), k)
  {
    LookSettles(h.c.nodes[src], key);
  }

  lemma RedirectLeaves(top: Topology, h: History, id: nat, k: Key)
    requires Enabled(top, h, Redirect(id)) && h.moves[id].key != k
    ensures SameAbout(h, After(top, h, Redirect(id)), k)
  {
  }

  lemma BackgroundLeaves(top: Topology, h: History, i: nat, o: Op, k: Key)
    requires Enabled(top, h, Background(i, o))
    ensures SameAbout(h, After(top, h, Background(i, o)), k)
  {
    NotSetWithin(top.cfgs[i], top.worlds[i], h.c.nodes[i], o);
  }

  /** Whose migration a step is about. */
  predicate Concerns(step: Step, id: nat) {
    match step
    case Fetch(n, _, _, _) => n == id
    case Release(n) => n == id
    case Deliver(n) => n == id
    case Redirect(n) => n == id
    case _ => false
  }

  lemma StepLeaves(top: Topology, h: History, step: Step, id: nat)
    requires Enabled(top, h, step) && Careful(top, h, step) && Alone(h.moves) && id in h.moves && !Concerns(step, id)
    ensures SameAbout(h, After(top, h, step), h.moves[id].key)
  {
    match step
    case Client(op) => ClientLeaves(top, h, op, h.moves[id].key);
    case Fetch(n, key, src, dst) => FetchLeaves(top, h, n, key, src, dst, h.moves[id].key);
    case Release(n) => ReleaseLeaves(top, h, n, h.moves[id].key);
    case Deliver(n) => DeliverLeaves(top, h, n, h.moves[id].key);
    case Redirect(n) => RedirectLeaves(top, h, n, h.moves[id].key);
    case Background(i, o) => BackgroundLeaves(top, h, i, o, h.moves[id].key);
  }

  lemma OthersGoOn(top: Topology, h: History, step: Step, id: nat)
    requires Enabled(top, h, step) && id in After(top, h, step).moves && !Concerns(step, id)
    ensures id in h.moves && After(top, h, step).moves[id] == h.moves[id]
  {
  }

  lemma FetchedOnTrack(top: Topology, h: History, id: nat, key: Key, src: nat, dst: nat)
    requires Enabled(top, h, Fetch(id, key, src, dst)) && Sound(top, h) && key in h.c.nodes[src].items
    ensures OnTrack(top, AfterFetch(h, id, key, src, dst), AfterFetch(h, id, key, src, dst).moves[id])
  {
    assert Placed(top, h, key, src);
    PlacedSame(top, h, AfterFetch(h, id, key, src, dst), key, src);
  }

  /** When the source lets go of a key that no other migration is about, nobody holds it. */
  lemma ReleasedOnTrack(top: Topology, h: History, id: nat)
    requires Enabled(top, h, Release(id)) && Sound(top, h) && Orderly(top, h) && id in After(top, h, Release(id)).moves
    ensures OnTrack(top, After(top, h, Release(id)), After(top, h, Release(id)).moves[id])
  {
    var m, h' := h.moves[id], After(top, h, Release(id));
    DeleteWithin(top.cfgs[m.src], top.worlds[m.src], h.c.nodes[m.src], m.key);
    assert OnTrack(top, h, m);
    forall n | n in h.moves ensures !h.moves[n].Awaits(m.key) {
    }
    forall i | 0 <= i < |h'.c.nodes| ensures m.key !in h'.c.nodes[i].items {
      assert m.key in h.c.nodes[i].items ==> Placed(top, h, m.key, i);
    }
  }

  lemma StaysAlone(top: Topology, h: History, step: Step)
    requires Enabled(top, h, step) && Careful(top, h, step) && Alone(h.moves)
    ensures Alone(After(top, h, step).moves)
  {
  }

  lemma OthersOnTrack(top: Topology, h: History, step: Step, id: nat)
    requires Enabled(top, h, step) && Orderly(top, h) && Careful(top, h, step)
    requires id in After(top, h, step).moves && !Concerns(step, id)
    ensures OnTrack(top, After(top, h, step), After(top, h, step).moves[id])
  {
    OthersGoOn(top, h, step, id);
    StepLeaves(top, h, step, id);
    assert OnTrack(top, h, h.moves[id]);
    KeptOnTrack(top, h, After(top, h, step), h.moves[id]);
  }

  lemma OrderlyStep(top: Topology, h: History, step: Step)
    requires Enabled(top, h, step) && Sound(top, h) && Orderly(top, h) && Careful(top, h, step)
    ensures Orderly(top, After(top, h, step))
  {
    var h' := After(top, h, step);
    StaysAlone(top, h, step);
    forall id | id in h'.moves ensures OnTrack(top, h', h'.moves[id]) {
      if !Concerns(step, id) {
        OthersOnTrack(top, h, step, id);
      } else {
        match step
        case Fetch(_, key, src, dst) => FetchedOnTrack(top, h, id, key, src, dst);
        case Release(_) => ReleasedOnTrack(top, h, id);
        case Deliver(_) =>
      }
    }
  }

  /** Callers that are careful throughout. */
  ghost predicate CarefulRun(top: Topology, run: seq<History>, steps: seq<Step>) {
    && IsRun(top, run, steps)
    && forall n :: 0 <= n < |steps| ==> Follows(top, run[n], steps[n], run[n + 1]) && Careful(top, run[n], steps[n])
  }

  lemma {:induction false} CarefulRunSound(top: Topology, run: seq<History>, steps: seq<Step>, n: nat)
    requires CarefulRun(top, run, steps) && Sound(top, run[0]) && Orderly(top, run[0]) && n < |run|
    ensures Sound(top, run[n]) && Orderly(top, run[n]) && Unbroken(top, run, steps, n)
  {
    if n > 0 {
      CarefulRunSound(top, run, steps, n - 1);
      assert Follows(top, run[n - 1], steps[n - 1], run[n]) && Careful(top, run[n - 1], steps[n - 1]);
      CarefulBreaksNothing(top, run[n - 1], steps[n - 1]);
      StepKeeps(top, run[n - 1], steps[n - 1]);
      OrderlyStep(top, run[n - 1], steps[n - 1]);
    }
  }

  /** When callers are careful, no step of a run from a fresh cluster breaks anything. So every Get hit
      returns the last accepted Set, not deleted since, and a recorded Delete is final. */
  lemma GetReturnsLatestWhenCareful(top: Topology, run: seq<History>, steps: seq<Step>, n: nat, k: Key)
    requires CarefulRun(top, run, steps) && Fresh(top, run[0]) && n < |run| && WellFormed(top, run[n].c)
    ensures Sound(top, run[n]) && Unbroken(top, run, steps, n)
    ensures Lookup(top, run[n].c, k).Some? ==> UpToDate(run[n].latest, k, Lookup(top, run[n].c, k).value)
  {
    CarefulRunSound(top, run, steps, n);
    SoundLookup(top, run[n], k);
  }

  // ----- a migration nothing interrupts

  /** The source's log append and store call both succeed. */
  ghost predicate Releases(cfg: Config, w: World, s: St) {
    P.Written(cfg, w(s.t)) && w(s.t + 1).stored
  }

  /** The source lets go of the key and the target takes it, but the target's store call then fails:
      the caller is told that nothing moved, and does not redirect the key's clients. */
  ghost predicate Strands(top: Topology, c: Cluster, src: nat, dst: nat, order: seq<Key>)
    requires Between(top, c, src, dst, order)
  {
    match Hottest(c.nodes[src].items, order)
    case None => false
    case Some(hot) =>
      var v := c.nodes[src].items[hot].value;
      && hot != "" && Releases(top.cfgs[src], top.worlds[src], c.nodes[src])
      && Accepts(top.cfgs[dst], top.worlds[dst], c.nodes[dst], hot, v, 0)
      && !Stores(top.cfgs[dst], top.worlds[dst], c.nodes[dst], hot, v, 0)
  }

  lemma ReleaseOutcome(cfg: Config, w: World, s: St, k: Key)
    requires k in s.items
    ensures CacheSpec.Delete(cfg, w, s, k).1 == Done <==> Releases(cfg, w, s)
  {
    AppendSettles(cfg, w, s, DeleteEntry(k));
  }

  /** The states such a migration goes through: c is the cluster so far. */
  function Halfway(c: Cluster, latest: map<Key, Bytes>, hot: Key, src: nat, dst: nat, phase: Phase): History {
    History(c, map[0 := Migration(hot, src, dst, phase)], latest)
  }

  function Over(c: Cluster, latest: map<Key, Bytes>): History {
    History(c, map[], latest)
  }

  lemma FetchIs(c: Cluster, latest: map<Key, Bytes>, hot: Key, src: nat, dst: nat)
    requires src < |c.nodes| && hot in c.nodes[src].items
    ensures AfterFetch(Over(c, latest), 0, hot, src, dst) ==
            Halfway(Put(c, src, Look(c.nodes[src], hot)), latest, hot, src, dst, Fetched(c.nodes[src].items[hot].value))
  {
  }

  lemma ReleaseIs(top: Topology, c: Cluster, latest: map<Key, Bytes>, hot: Key, src: nat, dst: nat, v: Bytes,
                  gone: St, deleted: Outcome)
    requires WellFormed(top, c) && src < |c.nodes|
    requires (gone, deleted) == CacheSpec.Delete(top.cfgs[src], top.worlds[src], Look(c.nodes[src], hot), hot)
    ensures var h1 := Halfway(Put(c, src, Look(c.nodes[src], hot)), latest, hot, src, dst, Fetched(v));
            AfterRelease(top, h1, 0, h1.moves[0]) ==
            if deleted == Done then Halfway(Put(c, src, gone), latest, hot, src, dst, Released(v))
            else Over(Put(c, src, gone), latest)
  {
    assert Put(Put(c, src, Look(c.nodes[src], hot)), src, gone) == Put(c, src, gone);
    assert map[0 := Migration(hot, src, dst, Fetched(v))] - {0} == map[];
  }

  lemma DeliverIs(top: Topology, c: Cluster, latest: map<Key, Bytes>, hot: Key, src: nat, dst: nat, v: Bytes,
                  held: St, stored: Outcome)
    requires WellFormed(top, c) && dst < |c.nodes|
    requires (held, stored) == CacheSpec.Set(top.cfgs[dst], top.worlds[dst], c.nodes[dst], hot, v, 0)
    ensures var h := Halfway(c, latest, hot, src, dst, Released(v));
            AfterDeliver(top, h, 0, h.moves[0]) ==
            if stored == Done then Halfway(Put(c, dst, held), latest, hot, src, dst, Moved)
            else Over(Put(c, dst, held), latest)
  {
    assert map[0 := Migration(hot, src, dst, Released(v))] - {0} == map[];
  }

  /** Fetched from a sound cluster in which nothing is under way, then released: nobody holds the key. */
  lemma ReleasedInOneGo(top: Topology, c: Cluster, latest: map<Key, Bytes>, hot: Key, src: nat, dst: nat, v: Bytes,
                        gone: St, deleted: Outcome)
    requires WellFormed(top, c) && src < |c.nodes| && dst < |c.nodes| && src != dst && hot != ""
    requires Sound(top, Over(c, latest)) && hot in c.nodes[src].items && c.nodes[src].items[hot].value == v
    requires (gone, deleted) == CacheSpec.Delete(top.cfgs[src], top.worlds[src], Look(c.nodes[src], hot), hot)
    ensures Sound(top, Over(Put(c, src, gone), latest))
    ensures deleted == Done ==> Nowhere(Put(c, src, gone), hot)
    ensures UpToDate(latest, hot, v) && Placed(top, Over(c, latest), hot, src)
  {
    var h := Over(c, latest);
    LookSettles(c.nodes[src], hot);
    DeleteWithin(top.cfgs[src], top.worlds[src], Look(c.nodes[src], hot), hot);
    PutWithin(top, h, src, gone, map[]);
    assert Placed(top, h, hot, src);
    if deleted == Done {
      forall i | 0 <= i < |c.nodes| ensures hot !in Put(c, src, gone).nodes[i].items {
        assert hot in c.nodes[i].items ==> Placed(top, h, hot, i);
      }
    }
  }

  /** A migration that awaits nothing makes no difference to where keys belong. */
  lemma NothingAwaited(top: Topology, c: Cluster, latest: map<Key, Bytes>, h: History)
    requires Sound(top, Over(c, latest)) && h.c == c && h.latest == latest && SameAwaited(map[], h.moves)
    ensures Sound(top, h)
  {
    forall i, k | 0 <= i < |c.nodes| && k in c.nodes[i].items ensures Placed(top, h, k, i) {
      assert Placed(top, Over(c, latest), k, i);
      PlacedSame(top, Over(c, latest), h, k, i);
    }
  }

  /** Delivered after that: sound, unless the store call fails. */
  lemma DeliveredInOneGo(top: Topology, c: Cluster, latest: map<Key, Bytes>, hot: Key, src: nat, dst: nat, v: Bytes,
                         held: St, stored: Outcome)
    requires WellFormed(top, c) && dst < |c.nodes| && src != dst && UpToDate(latest, hot, v)
    requires Sound(top, Over(c, latest)) && Nowhere(c, hot) && Route(top, c.overrides, hot) == Some(src)
    requires (held, stored) == CacheSpec.Set(top.cfgs[dst], top.worlds[dst], c.nodes[dst], hot, v, 0)
    ensures stored == Done ==> Sound(top, Over(Reroute(Put(c, dst, held), hot, top.ids[dst]), latest))
    ensures stored != Done ==> (Sound(top, Over(Put(c, dst, held), latest)) <==> stored != StoreFailed)
  {
    var h := Halfway(c, latest, hot, src, dst, Released(v));
    DeliverIs(top, c, latest, hot, src, dst, v, held, stored);
    NothingAwaited(top, c, latest, h);
    DeliverKeeps(top, h, 0);
    SetOutcome(top.cfgs[dst], top.worlds[dst], c.nodes[dst], hot, v, 0);
    assert !Placed(top, h, hot, dst) && !HeldElsewhere(c, hot, dst) && !AwaitedElsewhere(h, hot, dst);
    if stored == Done {
      var h' := Halfway(Put(c, dst, held), latest, hot, src, dst, Moved);
      RedirectKeeps(top, h', 0);
      assert After(top, h', Redirect(0)) == Over(Reroute(Put(c, dst, held), hot, top.ids[dst]), latest);
    }
  }

  /** What Migrate comes to. */
  lemma MigrateIs(top: Topology, c: Cluster, src: nat, dst: nat, order: seq<Key>, hot: Key, gone: St, deleted: Outcome,
                  held: St, stored: Outcome)
    requires Between(top, c, src, dst, order) && Hottest(c.nodes[src].items, order) == Some(hot) && hot != ""
    requires (gone, deleted) == CacheSpec.Delete(top.cfgs[src], top.worlds[src], Look(c.nodes[src], hot), hot)
    requires (held, stored) ==
             CacheSpec.Set(top.cfgs[dst], top.worlds[dst], c.nodes[dst], hot, c.nodes[src].items[hot].value, 0)
    ensures Migrate(top, c, src, dst, order) ==
            if deleted != Done then Put(c, src, gone)
            else if stored == Done then Reroute(Put(Put(c, src, gone), dst, held), hot, top.ids[dst])
            else Put(Put(c, src, gone), dst, held)
  {
    assert Put(Put(c, src, gone), dst, c.nodes[dst]) == Put(c, src, gone);
  }

  lemma StrandsIs(top: Topology, c: Cluster, src: nat, dst: nat, order: seq<Key>, hot: Key, deleted: Outcome,
                  stored: Outcome)
    requires Between(top, c, src, dst, order) && Hottest(c.nodes[src].items, order) == Some(hot) && hot != ""
    requires deleted == CacheSpec.Delete(top.cfgs[src], top.worlds[src], Look(c.nodes[src], hot), hot).1
    requires stored ==
             CacheSpec.Set(top.cfgs[dst], top.worlds[dst], c.nodes[dst], hot, c.nodes[src].items[hot].value, 0).1
    ensures Strands(top, c, src, dst, order) <==> deleted == Done && stored == StoreFailed
  {
    ReleaseOutcome(top.cfgs[src], top.worlds[src], Look(c.nodes[src], hot), hot);
    SetOutcome(top.cfgs[dst], top.worlds[dst], c.nodes[dst], hot, c.nodes[src].items[hot].value, 0);
  }

  lemma KeptInOneGo(top: Topology, c: Cluster, latest: map<Key, Bytes>, hot: Key, src: nat, dst: nat, v: Bytes,
                    gone: St, deleted: Outcome, held: St, stored: Outcome)
    requires WellFormed(top, c) && src < |c.nodes| && dst < |c.nodes| && src != dst && hot != ""
    requires Sound(top, Over(c, latest)) && hot in c.nodes[src].items && c.nodes[src].items[hot].value == v
    requires (gone, deleted) == CacheSpec.Delete(top.cfgs[src], top.worlds[src], Look(c.nodes[src], hot), hot)
    requires (held, stored) == CacheSpec.Set(top.cfgs[dst], top.worlds[dst], c.nodes[dst], hot, v, 0)
    ensures deleted != Done ==> Sound(top, Over(Put(c, src, gone), latest))
    ensures deleted == Done && stored == Done ==>
              Sound(top, Over(Reroute(Put(Put(c, src, gone), dst, held), hot, top.ids[dst]), latest))
    ensures deleted == Done && stored != Done ==>
              (Sound(top, Over(Put(Put(c, src, gone), dst, held), latest)) <==> stored != StoreFailed)
  {
    ReleasedInOneGo(top, c, latest, hot, src, dst, v, gone, deleted);
    if deleted == Done {
      DeliveredInOneGo(top, Put(c, src, gone), latest, hot, src, dst, v, held, stored);
    }
  }

  lemma MigratedKeeps(top: Topology, c: Cluster, src: nat, dst: nat, order: seq<Key>, latest: map<Key, Bytes>, hot: Key)
    requires Between(top, c, src, dst, order) && Sound(top, Over(c, latest))
    requires Hottest(c.nodes[src].items, order) == Some(hot) && hot != ""
    ensures Sound(top, Over(Migrate(top, c, src, dst, order), latest)) <==> !Strands(top, c, src, dst, order)
  {
    var v := c.nodes[src].items[hot].value;
    var (gone, deleted) := CacheSpec.Delete(top.cfgs[src], top.worlds[src], Look(c.nodes[src], hot), hot);
    var (held, stored) := CacheSpec.Set(top.cfgs[dst], top.worlds[dst], c.nodes[dst], hot, v, 0);
    MigrateIs(top, c, src, dst, order, hot, gone, deleted, held, stored);
    StrandsIs(top, c, src, dst, order, hot, deleted, stored);
    KeptInOneGo(top, c, latest, hot, src, dst, v, gone, deleted, held, stored);
  }

  /** A migration with its override keeps every key where it is routed to, with its current value,
      exactly when it does not strand its key. */
  lemma MigrationKeeps(top: Topology, c: Cluster, src: nat, dst: nat, order: seq<Key>, latest: map<Key, Bytes>)
    requires Between(top, c, src, dst, order) && Sound(top, Over(c, latest))
    ensures Sound(top, Over(Migrate(top, c, src, dst, order), latest)) <==> !Strands(top, c, src, dst, order)
  {
    var hottest := Hottest(c.nodes[src].items, order);
    if hottest.None? || hottest.value == "" {
      assert Put(Put(c, src, c.nodes[src]), dst, c.nodes[dst]) == c;
    } else {
      MigratedKeeps(top, c, src, dst, order, latest, hottest.value);
    }
  }

  lemma StepsSoFar(top: Topology, c: Cluster, src: nat, dst: nat, latest: map<Key, Bytes>, hot: Key, v: Bytes,
                   gone: St, deleted: Outcome)
    returns (h1: History, h2: History)
    requires WellFormed(top, c) && src < |c.nodes| && dst < |c.nodes| && src != dst && hot != ""
    requires hot in c.nodes[src].items && c.nodes[src].items[hot].value == v
    requires (gone, deleted) == CacheSpec.Delete(top.cfgs[src], top.worlds[src], Look(c.nodes[src], hot), hot)
    ensures Follows(top, Over(c, latest), Fetch(0, hot, src, dst), h1) && Follows(top, h1, Release(0), h2)
    ensures h2 == if deleted == Done then Halfway(Put(c, src, gone), latest, hot, src, dst, Released(v))
                  else Over(Put(c, src, gone), latest)
  {
    FetchIs(c, latest, hot, src, dst);
    ReleaseIs(top, c, latest, hot, src, dst, v, gone, deleted);
    h1 := After(top, Over(c, latest), Fetch(0, hot, src, dst));
    h2 := After(top, h1, Release(0));
  }

  lemma StepsToTheEnd(top: Topology, c: Cluster, src: nat, dst: nat, latest: map<Key, Bytes>, hot: Key, v: Bytes,
                      h2: History, held: St, stored: Outcome)
    returns (h3: History, h4: History)
    requires WellFormed(top, c) && dst < |c.nodes| && h2 == Halfway(c, latest, hot, src, dst, Released(v))
    requires (held, stored) == CacheSpec.Set(top.cfgs[dst], top.worlds[dst], c.nodes[dst], hot, v, 0)
    ensures Follows(top, h2, Deliver(0), h3)
    ensures if stored == Done then 0 in h3.moves && Follows(top, h3, Redirect(0), h4) else h3.moves == map[] && h4 == h3
    ensures var c' := Put(c, dst, held);
            h4 == Over(if stored == Done then Reroute(c', hot, top.ids[dst]) else c', latest)
  {
    DeliverIs(top, c, latest, hot, src, dst, v, held, stored);
    h3 := After(top, h2, Deliver(0));
    if stored == Done {
      h4 := After(top, h3, Redirect(0));
      assert map[0 := Migration(hot, src, dst, Moved)] - {0} == map[];
    } else {
      h4 := h3;
    }
  }

  /** A migration nothing interrupts is its steps, one after the other. */
  lemma MigrateIsSteps(top: Topology, c: Cluster, src: nat, dst: nat, order: seq<Key>, latest: map<Key, Bytes>,
                       hot: Key)
    returns (h1: History, h2: History, h3: History, h4: History)
    requires Between(top, c, src, dst, order) && Hottest(c.nodes[src].items, order) == Some(hot) && hot != ""
    ensures Follows(top, Over(c, latest), Fetch(0, hot, src, dst), h1) && Follows(top, h1, Release(0), h2)
    ensures if 0 in h2.moves then Follows(top, h2, Deliver(0), h3) else h3 == h2
    ensures if 0 in h3.moves then Follows(top, h3, Redirect(0), h4) else h4 == h3
    ensures h4 == Over(Migrate(top, c, src, dst, order), latest)
  {
    var v := c.nodes[src].items[hot].value;
    var (gone, deleted) := CacheSpec.Delete(top.cfgs[src], top.worlds[src], Look(c.nodes[src], hot), hot);
    var (held, stored) := CacheSpec.Set(top.cfgs[dst], top.worlds[dst], c.nodes[dst], hot, v, 0);
    MigrateIs(top, c, src, dst, order, hot, gone, deleted, held, stored);
    h1, h2 := StepsSoFar(top, c, src, dst, latest, hot, v, gone, deleted);
    if deleted == Done {
      h3, h4 := StepsToTheEnd(top, Put(c, src, gone), src, dst, latest, hot, v, h2, held, stored);
    } else {
      h3, h4 := h2, h2;
    }
  }
}
