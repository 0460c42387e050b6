/**
  What a Set reports and leaves on each of its ways out, what readers see of it, and what becomes of the
  eviction loop when every append or every store call fails.
 */
module CacheEffects {
  import opened PolicyHistory
  import opened Breaker
  import opened WalCodec
  import opened CacheSpec
  import opened CacheAccounting
  import opened CacheChoice
  import opened CacheLocality
  import opened CachePolicyLaws

  // ----- the ways out of a Set

  /** What a Set reports, told from the failures it meets, in this order. */
  ghost function SetReports(cfg: Config, w: World, s: St, k: Key, v: Bytes, ttl: int): Outcome {
    var r := Room(cfg, w, s, k, v, ttl).s;
    if !Written(cfg, w(s.t)) then AppendFailed
    else if |v| > cfg.capacity then TooLarge
    else if r.used + |v| > cfg.capacity then NoSpace
    else if !w(r.t).stored then StoreFailed
    else Done
  }

  lemma SetReportsIt(cfg: Config, w: World, s: St, k: Key, v: Bytes, ttl: int)
    ensures Set(cfg, w, s, k, v, ttl).1 == SetReports(cfg, w, s, k, v, ttl)
  {
    AppendGate(cfg, w, s, SetEntry(k, v, ttl));
  }

  /** A Set that the log refuses, or that is too large for the cache, leaves items and counter alone. The
      second kind is in the log all the same. */
  lemma RefusedSet(cfg: Config, w: World, s: St, k: Key, v: Bytes, ttl: int)
    requires SetReports(cfg, w, s, k, v, ttl) == AppendFailed || SetReports(cfg, w, s, k, v, ttl) == TooLarge
    ensures var s' := Set(cfg, w, s, k, v, ttl).0;
            && s'.items.Keys == s.items.Keys && s'.used == s.used && Shrunk(s, s')
            && s'.log == s.log + if Writes(cfg) && w(s.t).appended then [Entry("set", k, v, ttl)] else []
  {
    SetReportsIt(cfg, w, s, k, v, ttl);
    AppendGate(cfg, w, s, SetEntry(k, v, ttl));
    AppendSettles(cfg, w, s, SetEntry(k, v, ttl));
    assert s.log + [] == s.log;
  }

  /** Every other Set begins the log it adds with its own entry, TTL and all, and evicts after that. */
  lemma SetLogsFirst(cfg: Config, w: World, s: St, k: Key, v: Bytes, ttl: int)
    requires Writes(cfg) && w(s.t).appended
    ensures s.log + [Entry("set", k, v, ttl)] <= Set(cfg, w, s, k, v, ttl).0.log
  {
    var a := Append(cfg, w, s, SetEntry(k, v, ttl)).0;
    var r := Room(cfg, w, s, k, v, ttl).s;
    AppendGate(cfg, w, s, SetEntry(k, v, ttl));
    MakeRoomSettles(cfg, w, a, k, v);
    if SetReports(cfg, w, s, k, v, ttl) == Done {
      YieldGate(w, Insert(r, k, v));
      TriggerSettles(cfg, w, Yield(w, Insert(r, k, v)));
    } else if SetReports(cfg, w, s, k, v, ttl) == StoreFailed {
      YieldGate(w, Insert(r, k, v));
    }
  }

  /** A Set whose store call fails has put the value in and does not take it out again, but runs no pass. */
  lemma StoreFailedSet(cfg: Config, w: World, s: St, k: Key, v: Bytes, ttl: int)
    requires SetReports(cfg, w, s, k, v, ttl) == StoreFailed
    ensures var (s', r) := (Set(cfg, w, s, k, v, ttl).0, Room(cfg, w, s, k, v, ttl).s);
            && s'.items.Keys == r.items.Keys + {k} && s'.items[k].value == v && s'.items[k].size == |v|
            && s'.used == r.used + |v| && s'.log == r.log && s'.gate == r.gate
  {
    var i := Insert(Room(cfg, w, s, k, v, ttl).s, k, v);
    AppendGate(cfg, w, s, SetEntry(k, v, ttl));
    YieldGate(w, i);
    YieldSettles(w, i);
  }

  /** A Set without room for its value keeps what the evictions left, without the bytes of the old value. */
  lemma NoSpaceSet(cfg: Config, w: World, s: St, k: Key, v: Bytes, ttl: int)
    requires SetReports(cfg, w, s, k, v, ttl) == NoSpace
    ensures Set(cfg, w, s, k, v, ttl).0 == Room(cfg, w, s, k, v, ttl).s
    ensures Set(cfg, w, s, k, v, ttl).0.used <= s.used - if k in s.items then s.items[k].size else 0
  {
    var a := Append(cfg, w, s, SetEntry(k, v, ttl)).0;
    AppendGate(cfg, w, s, SetEntry(k, v, ttl));
    AppendSettles(cfg, w, s, SetEntry(k, v, ttl));
    MakeRoomSettles(cfg, w, a, k, v);
  }

  // ----- a worker's turn in two parts

  /** A turn in which the service names a key is the call followed by a delete of that key. */
  lemma WorkerIsAskAndDelete(cfg: Config, w: World, s: St, k: Key)
    requires cfg.ml && s.items != map[] && Suggests(s.gate, Request(true, w(s.t).call), k)
    ensures Worker(cfg, w, s) == Do(cfg, w, Do(cfg, w, s, AskOp), DeleteOp(k))
  {
  }

  // ----- what readers see

  /** The last thing readers saw is what there is. */
  ghost predicate Shown(s: St) {
    s.seen != [] && s.seen[|s.seen| - 1] == View(s.items, s.used, s.hist)
  }

  lemma {:induction false} LookAllShows(s: St, ks: seq<Key>)
    requires Shown(s)
    ensures Shown(LookAll(s, ks)) && s.seen <= LookAll(s, ks).seen
    decreases |ks|
  {
    if ks != [] {
      LookAllShows(Look(s, ks[0]), ks[1..]);
    }
  }

  /** Whenever the mutex is free readers see the state as it then is, and as the Gets leave it. */
  lemma YieldShows(w: World, s: St)
    ensures Shown(Yield(w, s)) && s.seen + [View(s.items, s.used, s.hist)] <= Yield(w, s).seen
  {
    LookAllShows(Publish(s), w(s.t).gets);
  }

  lemma AppendShows(cfg: Config, w: World, s: St, e: Entry)
    ensures Shown(Append(cfg, w, s, e).0) && s.seen <= Append(cfg, w, s, e).0.seen
  {
    YieldShows(w, s);
    YieldShows(w, s.(log := s.log + [e]));
  }

  lemma DeleteShows(cfg: Config, w: World, s: St, k: Key)
    ensures Shown(Delete(cfg, w, s, k).0) && s.seen <= Delete(cfg, w, s, k).0.seen
  {
    var a := Append(cfg, w, s, DeleteEntry(k)).0;
    AppendShows(cfg, w, s, DeleteEntry(k));
    if k in a.items {
      YieldShows(w, Remove(a, k));
    }
  }

  /** A round of the loop up to its choice of a victim. */
  lemma PickShows(cfg: Config, w: World, s: St, c: St)
    requires c == Choose(cfg, w, Yield(w, s)).0
    ensures s.seen <= c.seen && c.items.Keys == s.items.Keys
  {
    var y := Yield(w, s);
    YieldSettles(w, s);
    ChooseSettles(cfg, w, y);
    YieldShows(w, s);
    YieldShows(w, y);
    YieldShows(w, y.(gate := Predict(y.gate, Request(y.items != map[], w(y.t).call)).0));
  }

  lemma {:induction false} EvictShows(cfg: Config, w: World, s: St, need: int, count: nat, attempted: set<Key>,
                                      e: Evicted)
    requires e == Evict(cfg, w, s, need, count, attempted)
    ensures s.seen <= e.s.seen
    decreases s.items.Keys - attempted
  {
    if Picks(cfg, s, need, count) {
      assert e == Turn(cfg, w, s, need, count, attempted);
      var (c, victim) := Choose(cfg, w, Yield(w, s));
      PickShows(cfg, w, s, c);
      if victim.Some? && victim.value !in attempted && victim.value in c.items {
        var (d, outcome) := DeleteLocked(cfg, w, c, victim.value);
        DeleteShows(cfg, w, c, victim.value);
        DeleteLockedSettles(cfg, w, c, victim.value);
        assert victim.value in s.items.Keys - attempted;
        EvictShows(cfg, w, d, need, if outcome == Done then count + 1 else count, attempted + {victim.value}, e);
      }
    }
  }

  lemma TriggerShows(cfg: Config, w: World, s: St)
    ensures s.seen <= Trigger(cfg, w, s).seen
  {
    var y := Yield(w, s);
    var z, need := Yield(w, y), y.used - cfg.capacity / 2;
    YieldShows(w, s);
    YieldShows(w, y);
    EvictShows(cfg, w, z, need, 0, {}, Evict(cfg, w, z, need, 0, {}));
  }

  lemma RoomShows(cfg: Config, w: World, s: St, k: Key, v: Bytes, ttl: int) returns (v0: View)
    requires Written(cfg, w(s.t)) && |v| <= cfg.capacity
    ensures s.seen <= Room(cfg, w, s, k, v, ttl).s.seen && v0 in Room(cfg, w, s, k, v, ttl).s.seen[|s.seen|..]
    ensures v0.used == s.used - (if k in s.items then s.items[k].size else 0) && v0.items.Keys == s.items.Keys
  {
    var a := Append(cfg, w, s, SetEntry(k, v, ttl)).0;
    var b := Yield(w, Subtract(a, k));
    AppendShows(cfg, w, s, SetEntry(k, v, ttl));
    AppendSettles(cfg, w, s, SetEntry(k, v, ttl));
    YieldShows(w, Subtract(a, k));
    EvictShows(cfg, w, b, |v|, 0, {}, Evict(cfg, w, b, |v|, 0, {}));
    v0 := View(a.items, Subtract(a, k).used, a.hist);
    assert Room(cfg, w, s, k, v, ttl).s.seen[|a.seen|] == v0;
  }

  /** A reader can see the counter without the bytes of the value about to be replaced while that value is
      still there; and it sees the new value before the Set returns, even if its pass or a failing store
      call comes after. */
  lemma SetShows(cfg: Config, w: World, s: St, k: Key, v: Bytes, ttl: int) returns (gap: View, put: View)
    requires SetReports(cfg, w, s, k, v, ttl) == Done || SetReports(cfg, w, s, k, v, ttl) == StoreFailed
    ensures s.seen <= Set(cfg, w, s, k, v, ttl).0.seen
    ensures gap in Set(cfg, w, s, k, v, ttl).0.seen[|s.seen|..] && put in Set(cfg, w, s, k, v, ttl).0.seen[|s.seen|..]
    ensures gap.used == s.used - (if k in s.items then s.items[k].size else 0) && gap.items.Keys == s.items.Keys
    ensures k in put.items && put.items[k].value == v
  {
    var r := Room(cfg, w, s, k, v, ttl).s;
    var i := Insert(r, k, v);
    var s' := Set(cfg, w, s, k, v, ttl).0;
    SetReportsIt(cfg, w, s, k, v, ttl);
    gap := RoomShows(cfg, w, s, k, v, ttl);
    YieldShows(w, i);
    TriggerShows(cfg, w, Yield(w, i));
    assert r.seen <= s'.seen;
    put := View(i.items, i.used, i.hist);
    assert s'.seen[|r.seen|] == put;
    var n :| |s.seen| <= n < |r.seen| && r.seen[n] == gap;
    assert s'.seen[n] == gap;
  }

  // ----- a loop that meets nothing but faults

  ghost predicate LogFails(cfg: Config, w: World, from: nat, to: nat) {
    Writes(cfg) && forall t: nat :: from <= t < to ==> !w(t).appended
  }

  ghost predicate StoreFails(cfg: Config, w: World, from: nat, to: nat) {
    forall t: nat :: from <= t < to ==> Written(cfg, w(t)) && !w(t).stored
  }

  /** One round on an LFU or LRU node whose policy is in step: the victim is live, and is given up or
      deleted. */
  lemma VictimIsLive(cfg: Config, w: World, s: St, need: int, count: nat, attempted: set<Key>, e: Evicted)
    returns (k: Key, c: St)
    requires e == Evict(cfg, w, s, need, count, attempted)
    requires !cfg.ml && InStep(s) && Picks(cfg, s, need, count)
    ensures k in s.items && c.items.Keys == s.items.Keys && c.used == s.used && c.log == s.log && c.t == s.t + 2
    ensures InStep(c) && Settles(s, c) && e == Attempt(cfg, w, c, need, count, attempted, k)
  {
    c := Choose(cfg, w, Yield(w, s)).0;
    PickInStep(cfg, w, s, c);
    ChooseMeans(cfg, w, s);
    YieldInStep(w, s);
    YieldSettles(w, s);
    ChooseSettles(cfg, w, Yield(w, s));
    SettlesTrans(s, Yield(w, s), c);
    k := Victim(cfg.kind, Yield(w, s).hist).value;
    assert k in Ranks(Yield(w, s).hist);
    assert e == Turn(cfg, w, s, need, count, attempted);
  }

  lemma ForgetUntracks(s: St, k: Key)
    ensures Tracked(Forget(s, k).hist) == Tracked(s.hist) - {k}
  {
    RanksSnoc(s.hist, Dropped(k));
  }

  lemma FailedDelete(cfg: Config, w: World, c: St, k: Key, e: Evicted, need: int, count: nat, attempted: set<Key>)
    returns (d: St)
    requires k in c.items && k !in attempted && InStep(c) && e == Attempt(cfg, w, c, need, count, attempted, k)
    requires Writes(cfg) && !w(c.t).appended
    ensures d.items.Keys == c.items.Keys && d.used == c.used && d.log == c.log && InStep(d) && c.t < d.t
    ensures e == Evict(cfg, w, d, need, count, attempted + {k})
  {
    d := DeleteLocked(cfg, w, c, k).0;
    DeleteMeans(cfg, w, c, k);
    DeleteInStep(cfg, w, c, k);
    DeleteLocal(cfg, w, w, c, k);
    AppendSettles(cfg, w, c, DeleteEntry(k));
  }

  /** While no append succeeds the loop evicts nothing. It ends when it comes back to a key it has tried,
      and the policy then forgets that key, which is still live: from then on the policy is out of step. */
  lemma {:induction false} FailingLogUntracks(cfg: Config, w: World, s: St, need: int, count: nat,
                                              attempted: set<Key>, e: Evicted) returns (k: Key)
    requires e == Evict(cfg, w, s, need, count, attempted) && LogFails(cfg, w, s.t, e.s.t)
    requires !cfg.ml && InStep(s) && Picks(cfg, s, need, count)
    ensures e.exit == AlreadyAttempted && e.count == count
    ensures e.s.items.Keys == s.items.Keys && e.s.used == s.used && e.s.log == s.log
    ensures k in e.s.items && Tracked(e.s.hist) == e.s.items.Keys - {k}
    decreases s.items.Keys - attempted
  {
    var c;
    k, c := VictimIsLive(cfg, w, s, need, count, attempted, e);
    if k in attempted {
      ForgetUntracks(c, k);
    } else {
      AttemptTime(cfg, w, c, need, count, attempted, k, e);
      var after := DeleteLocked(cfg, w, c, k).0;
      DeleteLocal(cfg, w, w, c, k);
      EvictLocal(cfg, w, w, after, need, if DeleteLocked(cfg, w, c, k).1 == Done then count + 1 else count,
                 attempted + {k}, e);
      assert !w(c.t).appended;
      var d := FailedDelete(cfg, w, c, k, e, need, count, attempted);
      assert k in s.items.Keys - attempted;
      assert d.items.Keys != {};
      k := FailingLogUntracks(cfg, w, d, need, count, attempted + {k}, e);
    }
  }

  /** While the log works but no store call succeeds nothing is counted, and so the loop does not stop at
      ten: however many evictions it takes, it goes on until there is room. */
  lemma {:induction false} FailingStoreEvictsOn(cfg: Config, w: World, s: St, need: int, count: nat,
                                                attempted: set<Key>, e: Evicted)
    requires e == Evict(cfg, w, s, need, count, attempted) && StoreFails(cfg, w, s.t, e.s.t)
    requires !cfg.ml && InStep(s) && Drift(s) >= 0 && attempted !! s.items.Keys
    requires need <= cfg.capacity && count < MAX_EVICTIONS
    ensures e.exit == Fits && e.count == count && Roomy(cfg, e.s, need)
    decreases s.items.Keys - attempted
  {
    if !Roomy(cfg, s, need) {
      FullIsNotEmpty(cfg, s, need);
      var k, c := VictimIsLive(cfg, w, s, need, count, attempted, e);
      var (d, outcome) := DeleteLocked(cfg, w, c, k);
      var a := Append(cfg, w, c, DeleteEntry(k)).0;
      DeleteLocal(cfg, w, w, c, k);
      AppendLocal(cfg, w, w, c, DeleteEntry(k));
      EvictLocal(cfg, w, w, d, need, if outcome == Done then count + 1 else count, attempted + {k}, e);
      DeleteMeans(cfg, w, c, k);
      assert Written(cfg, w(c.t));
      AppendSettles(cfg, w, c, DeleteEntry(k));
      YieldLocal(w, w, Remove(a, k));
      assert !w(c.t + 1).stored;
      DeleteInStep(cfg, w, c, k);
      DeleteLockedSettles(cfg, w, c, k);
      SettlesTrans(s, c, d);
      assert k in s.items.Keys - attempted;
      FailingStoreEvictsOn(cfg, w, d, need, count, attempted + {k}, e);
    }
  }
}
