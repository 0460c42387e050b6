/**
  cache/cache.go: the cache itself, updating its fields in place. Each method does to the state
  exactly what the function of the same name in CacheSpec says. Wherever the mutex is free the code
  lets the world run its Gets; that is the only interference a writer admits.
 */
module CacheNode {
  import opened Prelude
  import opened PolicyHistory
  import opened WalCodec
  import opened Wal
  import opened Policies
  import opened Breaker
  import opened S = CacheSpec

  class Cache {
    const capacity: nat
    const policy: EvictionPolicy
    const wal: WAL?
    const world: World
    var items: Items
    var used: int
    var recovering: bool
    var t: nat
    ghost var seen: seq<View>
    ghost var Repr: set<object>

    static ghost function Objects(wal: WAL?): set<object> {
      if wal == null then {} else {wal}
    }

    ghost predicate Valid()
      reads this, Repr
    {
      && this in Repr && policy.Own() <= Repr && policy.Repr() <= Repr
      && policy.Valid() && this !in policy.Repr()
      && (wal != null ==> wal in Repr && wal.Valid() && wal !in policy.Repr())
    }

    function Config(): Config
      reads this
    {
      S.Config(capacity, policy.Base().Kind(), policy.Ml?, policy.Ml? && policy.ml.stateProvider,
               wal != null, recovering)
    }

    ghost function State(): St
      reads this, policy.Own(), Objects(wal)
    {
      St(items, used, policy.Hist(), policy.Gate(), if wal == null then [] else wal.log, seen, t)
    }

    constructor (capacity: nat, policy: EvictionPolicy, wal: WAL?, world: World)
      requires policy.Valid() && policy.Hist() == []
      requires wal != null ==> wal.Valid() && wal !in policy.Repr()
      ensures Valid() && this.world == world && this.policy == policy && this.wal == wal
      ensures Config() == S.Config(capacity, policy.Base().Kind(), policy.Ml?,
                                   policy.Ml? && policy.ml.stateProvider, wal != null, false)
      ensures State() == Empty(policy.Gate(), if wal == null then [] else wal.log)
      ensures Repr == {this} + policy.Own() + policy.Repr() + Objects(wal)
    {
      this.capacity, this.policy, this.wal, this.world := capacity, policy, wal, world;
      items, used, recovering, t, seen := map[], 0, false, 0, [];
      Repr := {this} + policy.Own() + policy.Repr() + Objects(wal);
    }

    /** NewCache, in front of a log that has just been opened. */
    static method NewCache(capacity: nat, policy: EvictionPolicy, wal: WAL?, world: World)
      returns (c: Cache, ok: bool)
      requires policy.Valid() && policy.Hist() == []
      requires wal != null ==> wal.Valid() && wal.Opened() && wal !in policy.Repr()
      modifies policy.Own(), policy.Repr(), Objects(wal)
      ensures fresh(c) && c.Valid() && fresh(c.Repr - old(policy.Own() + policy.Repr() + Objects(wal)))
      ensures c.world == world && c.capacity == capacity && c.policy == policy && c.wal == wal && !c.recovering
      ensures ok == (wal == null || ReadFile(old(wal.file)).Ok?)
      ensures ok ==>
                var log := if wal == null then [] else Found(old(wal.file));
                c.State() == Started(c.Config(), world, old(policy.Gate()), log)
    {
      c := new Cache(capacity, policy, wal, world);
      ok := c.LoadFromWAL();
    }

    method Get(key: Key) returns (r: Option<Bytes>)
      requires Valid()
      modifies Repr
      ensures Valid() && fresh(Repr - old(Repr))
      ensures State() == S.Look(old(State()), key) && t == old(t)
      ensures r == if key in old(items) then Some(old(items)[key].value) else None
      ensures if key in old(items)
              then
                && items == old(items)[key := old(items)[key].(frequency := old(items)[key].frequency + 1)]
                && policy.Hist() == old(policy.Hist()) + [Got(key)]
              else items == old(items) && policy.Hist() == old(policy.Hist())
      ensures recovering == old(recovering)
    {
      if key in items {
        var item := items[key];
        items := items[key := item.(frequency := item.frequency + 1)];
        policy.OnGet(key);
        Repr := Repr + policy.Repr();
        r := Some(item.value);
      } else {
        r := None;
      }
      seen := seen + [View(items, used, policy.Hist())];
    }

    // ----- interference

    method RunGets(keys: seq<Key>)
      requires Valid()
      modifies Repr
      ensures Valid() && fresh(Repr - old(Repr)) && recovering == old(recovering)
      ensures State() == LookAll(old(State()), keys) && t == old(t)
    {
      var i := 0;
      while i < |keys|
        invariant i <= |keys|
        invariant Valid() && fresh(Repr - old(Repr)) && recovering == old(recovering) && t == old(t)
        invariant LookAll(State(), keys[i..]) == LookAll(old(State()), keys)
      {
        var _ := Get(keys[i]);
        assert keys[i..][1..] == keys[i + 1..];
        i := i + 1;
      }
    }

    /** The mutex is free: readers may look, and the Gets the world has waiting run. */
    method Yield()
      requires Valid()
      modifies Repr
      ensures Valid() && fresh(Repr - old(Repr)) && recovering == old(recovering)
      ensures State() == S.Yield(world, old(State()))
    {
      var gets := world(t).gets;
      PublishView();
      RunGets(gets);
      Tick();
    }

    method Tick()
      requires Valid()
      modifies `t
      ensures Valid() && State() == old(State()).(t := old(t) + 1) && Config() == old(Config())
      ensures Repr == old(Repr)
    {
      t := t + 1;
    }

    ghost method PublishView()
      requires Valid()
      modifies `seen
      ensures Valid() && State() == Publish(old(State()))
    {
      seen := seen + [View(items, used, policy.Hist())];
    }

    // ----- delete

    method Append(e: Entry) returns (ok: bool)
      requires Valid() && ValidOp(e.op)
      modifies Repr
      ensures Valid() && fresh(Repr - old(Repr)) && recovering == old(recovering)
      ensures (State(), ok) == S.Append(old(Config()), world, old(State()), e)
    {
      ok := true;
      if !recovering && wal != null {
        ok := wal.Append(e, world(t).appended);
      }
      Yield();
    }

    method DeleteLocked(key: Key) returns (outcome: Outcome)
      requires Valid()
      modifies Repr
      ensures Valid() && fresh(Repr - old(Repr)) && recovering == old(recovering)
      ensures (State(), outcome) == S.DeleteLocked(old(Config()), world, old(State()), key)
    {
      var ok := Append(DeleteEntry(key));
      if !ok {
        return AppendFailed;
      }
      if key !in items {
        return Done;
      }
      var stored := world(t).stored;
      RemoveItem(key);
      Yield();
      return if stored then Done else StoreFailed;
    }

    method RemoveItem(key: Key)
      requires Valid() && key in items
      modifies Repr
      ensures Valid() && fresh(Repr - old(Repr)) && recovering == old(recovering)
      ensures State() == Remove(old(State()), key)
    {
      used := used - items[key].size;
      items := items - {key};
      policy.OnDelete(key);
      Repr := Repr + policy.Repr();
    }

    /** writeMu is held from start to end of every writer, so it needs no field here. */
    method Delete(key: Key) returns (outcome: Outcome)
      requires Valid()
      modifies Repr
      ensures Valid() && fresh(Repr - old(Repr)) && recovering == old(recovering)
      ensures (State(), outcome) == S.Delete(old(Config()), world, old(State()), key)
    {
      outcome := DeleteLocked(key);
    }

    // ----- eviction

    method ChooseEviction() returns (victim: Option<Key>)
      requires Valid()
      modifies Repr
      ensures Valid() && fresh(Repr - old(Repr)) && recovering == old(recovering)
      ensures (State(), victim) == Choose(old(Config()), world, old(State()))
    {
      match policy {
        case Plain(base) =>
          victim := base.ChooseEviction();
        case Ml(ml) =>
          if !recovering {
            victim := AskPolicy();
            return;
          }
          victim := ml.ChooseEvictionDuringRecovery();
      }
      Yield();
    }

    /** The choice of a candidate in the body of the eviction loop. */
    method Pick() returns (victim: Option<Key>)
      requires Valid()
      modifies Repr
      ensures Valid() && fresh(Repr - old(Repr)) && recovering == old(recovering)
      ensures (State(), victim) == Choose(old(Config()), world, S.Yield(world, old(State())))
      ensures items.Keys == old(items).Keys
    {
      ghost var cfg, s := Config(), State();
      Yield();
      victim := ChooseEviction();
      LookAllKeys(Publish(s), world(s.t).gets);
      ChooseKeys(cfg, world, S.Yield(world, s));
    }

    /** The rest of the body: the candidate is attempted if it is new and live. */
    method AttemptKey(need: int, attempted: set<Key>, key: Key, ghost count: nat) returns (go: bool, counted: bool)
      requires Valid()
      modifies Repr
      ensures Valid() && fresh(Repr - old(Repr)) && recovering == old(recovering)
      ensures var e := Attempt(old(Config()), world, old(State()), need, count, attempted, key);
              if !go then State() == e.s && e.exit != NoItems
              else
                && key in old(items).Keys - attempted && items.Keys <= old(items).Keys
                && e == Evict(old(Config()), world, State(), need, if counted then count + 1 else count,
                              attempted + {key})
    {
      if key in attempted {
        GiveUp(key);
        return false, false;
      }
      if key !in items {
        return false, false;
      }
      DeleteLockedKeys(Config(), world, State(), key);
      var outcome := DeleteLocked(key);
      return true, outcome == Done;
    }

    method AttemptOne(need: int, attempted: set<Key>, ghost count: nat) returns (key: Option<Key>, counted: bool)
      requires Valid()
      modifies Repr
      ensures Valid() && fresh(Repr - old(Repr)) && recovering == old(recovering)
      ensures var e := Turn(old(Config()), world, old(State()), need, count, attempted);
              if key.None? then State() == e.s && e.exit != NoItems
              else
                && key.value in old(items).Keys - attempted && items.Keys <= old(items).Keys
                && e == Evict(old(Config()), world, State(), need, if counted then count + 1 else count,
                              attempted + {key.value})
    {
      ghost var before := Repr;
      key := Pick();
      counted := false;
      ghost var between := Repr;
      if key.Some? {
        var go;
        go, counted := AttemptKey(need, attempted, key.value, count);
        key := if go then key else None;
      }
      assert fresh(between - before);
    }

    method GiveUp(key: Key)
      requires Valid()
      modifies Repr
      ensures Valid() && fresh(Repr - old(Repr)) && recovering == old(recovering)
      ensures State() == Forget(old(State()), key)
    {
      policy.OnDelete(key);
      Repr := Repr + policy.Repr();
    }

    /** The eviction loop. */
    method EvictRounds(need: int)
      requires Valid()
      modifies Repr
      ensures Valid() && fresh(Repr - old(Repr)) && recovering == old(recovering)
      ensures State() == Evict(old(Config()), world, old(State()), need, 0, {}).s
    {
      ghost var cfg := Config();
      ghost var goal := Evict(cfg, world, State(), need, 0, {});
      var evicted: nat, attempted: set<Key> := 0, {};
      while evicted < MAX_EVICTIONS
        invariant Valid() && fresh(Repr - old(Repr)) && Config() == cfg
        invariant Evict(cfg, world, State(), need, evicted, attempted) == goal
        decreases items.Keys - attempted
      {
        if used + need <= capacity || items == map[] {
          break;  // satisfied, or nothing to evict
        }
        var key, counted := AttemptOne(need, attempted, evicted);
        if key.None? {
          break;
        }
        attempted := attempted + {key.value};
        evicted := if counted then evicted + 1 else evicted;
      }
    }

    method EvictToMakeSpace(need: int) returns (ok: bool)
      requires Valid()
      modifies Repr
      ensures Valid() && fresh(Repr - old(Repr)) && recovering == old(recovering)
      ensures var e := Evict(old(Config()), world, old(State()), need, 0, {});
              State() == e.s && ok == Freed(old(Config()), e, need)
    {
      EvictRounds(need);
      ok := used + need <= capacity;
    }

    // ----- set

    method InsertItem(key: Key, value: Bytes)
      requires Valid()
      modifies Repr
      ensures Valid() && fresh(Repr - old(Repr)) && recovering == old(recovering)
      ensures State() == Insert(old(State()), key, value)
    {
      items := items[key := Item(value, |value|, 1)];
      used := used + |value|;
      policy.OnSet(key);
      Repr := Repr + policy.Repr();
    }

    method TriggerMLEvictionIfNeeded()
      requires Valid()
      modifies Repr
      ensures Valid() && fresh(Repr - old(Repr)) && recovering == old(recovering)
      ensures State() == Trigger(old(Config()), world, old(State()))
    {
      Yield();
      if 2 * used <= capacity || policy.Ml? {
        return;
      }
      ProactivePass();
    }

    method ProactivePass()
      requires Valid()
      modifies Repr
      ensures Valid() && fresh(Repr - old(Repr)) && recovering == old(recovering)
      ensures State() == Proactive(old(Config()), world, old(State()))
    {
      var spaceToFree := used - capacity / 2;
      ghost var after := Proactive(Config(), world, State());
      Yield();
      assert after == if spaceToFree > capacity / 20
                      then Evict(Config(), world, State(), spaceToFree, 0, {}).s else State();
      if spaceToFree > capacity / 20 {
        EvictRounds(spaceToFree);
      }
    }

    /** The size of an item about to be replaced comes off before there is room for the new one. */
    method TakeOff(key: Key)
      requires Valid()
      modifies `used
      ensures Valid() && State() == Subtract(old(State()), key)
    {
      if key in items {
        used := used - items[key].size;
      }
    }

    method EnsureRoom(key: Key, size: nat, ghost value: Bytes) returns (ok: bool)
      requires Valid() && size == |value|
      modifies Repr
      ensures Valid() && fresh(Repr - old(Repr)) && recovering == old(recovering)
      ensures var e := MakeRoom(old(Config()), world, old(State()), key, value);
              State() == e.s && ok == Freed(old(Config()), e, size)
    {
      TakeOff(key);
      Yield();
      ok := true;
      if used + size > capacity {
        ok := EvictToMakeSpace(size);
      }
    }

    method SetWithTTL(key: Key, value: Bytes, ttl: int) returns (outcome: Outcome)
      requires Valid()
      modifies Repr
      ensures Valid() && fresh(Repr - old(Repr)) && recovering == old(recovering)
      ensures (State(), outcome) == S.Set(old(Config()), world, old(State()), key, value, ttl)
    {
      var ok := Append(SetEntry(key, value, ttl));
      if !ok {
        return AppendFailed;
      }
      if |value| > capacity {
        return TooLarge;
      }
      ok := EnsureRoom(key, |value|, value);
      if !ok {
        return NoSpace;
      }
      outcome := StoreValue(key, value);
    }

    method StoreValue(key: Key, value: Bytes) returns (outcome: Outcome)
      requires Valid()
      modifies Repr
      ensures Valid() && fresh(Repr - old(Repr)) && recovering == old(recovering)
      ensures (State(), outcome) == Commit(old(Config()), world, old(State()), key, value)
    {
      InsertItem(key, value);
      var stored := world(t).stored;
      Yield();
      if !stored {
        return StoreFailed;
      }
      TriggerMLEvictionIfNeeded();
      return Done;
    }

    // ----- background worker

    method WorkerTurn()
      requires Valid()
      modifies Repr
      ensures Valid() && fresh(Repr - old(Repr)) && recovering == old(recovering)
      ensures State() == Worker(old(Config()), world, old(State()))
    {
      if policy.Plain? || !policy.ml.enabled || items == map[] {
        return;
      }
      var victim := AskService();
      if victim.None? {
        victim := AskPolicy();
      }
      if victim.Some? {
        var _ := Delete(victim.value);
      }
    }

    method AskService() returns (answer: Option<Key>)
      requires Valid() && policy.Ml? && items != map[]
      modifies Repr
      ensures Valid() && fresh(Repr - old(Repr)) && recovering == old(recovering)
      ensures var (g, a) := Predict(old(State()).gate, Request(true, world(old(t)).call));
              answer == a && State() == S.Yield(world, old(State()).(gate := g))
    {
      answer := policy.ml.GetMLPrediction(true, world(t).call);
      Yield();
    }

    method AskPolicy() returns (victim: Option<Key>)
      requires Valid() && policy.Ml?
      modifies Repr
      ensures Valid() && fresh(Repr - old(Repr)) && recovering == old(recovering)
      ensures (State(), victim) == ChooseWithMl(old(Config()), world, old(State()))
    {
      victim := policy.ml.ChooseEviction(items != map[], world(t).call);
      Yield();
    }

    // ----- recovery

    /** A scan that fails leaves the cache empty and is reported to the caller. */
    method LoadFromWAL() returns (ok: bool)
      requires Valid()
      modifies Repr
      ensures Valid() && fresh(Repr - old(Repr))
      ensures ok == (wal == null || ReadFile(old(wal.file)).Ok?)
      ensures if wal != null && ok
              then && !recovering
                   && State() == Replay(old(Config()).(recovering := true), world, old(State()),
                                        ReadFile(old(wal.file)).value)
              else State() == old(State()) && recovering == old(recovering)
    {
      if wal == null {
        return true;
      }
      var entries := wal.ReadAll();
      if entries.Err? {
        return false;
      }
      Recover(entries.value);
      return true;
    }

    method Recover(entries: seq<Entry>)
      requires Valid()
      modifies Repr
      ensures Valid() && fresh(Repr - old(Repr)) && !recovering
      ensures State() == Replay(old(Config()).(recovering := true), world, old(State()), entries)
    {
      Recovering(true);
      ReplayAll(entries);
      Recovering(false);
    }

    method Recovering(on: bool)
      requires Valid()
      modifies `recovering
      ensures Valid() && State() == old(State()) && Config() == old(Config()).(recovering := on)
      ensures Repr == old(Repr) && recovering == on
    {
      recovering := on;
    }

    method ReplayAll(entries: seq<Entry>)
      requires Valid() && recovering
      modifies Repr
      ensures Valid() && fresh(Repr - old(Repr)) && recovering
      ensures State() == Replay(old(Config()), world, old(State()), entries)
    {
      ghost var cfg := Config();
      var i := 0;
      while i < |entries|
        invariant i <= |entries|
        invariant Valid() && fresh(Repr - old(Repr)) && Config() == cfg
        invariant State() == Replay(cfg, world, old(State()), entries[..i])
      {
        ReplayOne(entries[i]);
        assert entries[..i + 1][..i] == entries[..i];
        i := i + 1;
      }
      assert entries[..i] == entries;
    }

    method ReplayOne(e: Entry)
      requires Valid()
      modifies Repr
      ensures Valid() && fresh(Repr - old(Repr)) && recovering == old(recovering)
      ensures State() == Replay1(old(Config()), world, old(State()), e)
    {
      if e.op == "set" {
        var _ := SetWithTTL(e.key, e.value, e.ttl);
      } else if e.op == "delete" {
        var _ := Delete(e.key);
      }
    }
  }
}
