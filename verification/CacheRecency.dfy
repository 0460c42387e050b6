/**
  What becomes of the key that has just been written. Exactly when a Set keeps its own key, if no Get
  runs after the first pick of its proactive pass; and for Gets at any point, when an LRU node keeps
  it and when an LRU or LFU node gives it up.
 */
module CacheRecency {
  import opened PolicyHistory
  import opened CacheSpec
  import opened CacheAccounting
  import opened CacheLocality
  import opened CachePolicyLaws
  import opened CacheSurvival

  // ----- the keys read meanwhile

  /** Only keys of the group are read in the gap. */
  ghost predicate Reads(c: Choice, group: set<Key>) {
    forall g :: g in c.gets ==> g in group
  }

  ghost predicate Only(w: World, group: set<Key>) {
    forall t: nat :: Reads(w(t), group)
  }

  ghost predicate OnlyIn(w: World, group: set<Key>, from: nat, to: nat) {
    forall t: nat :: from <= t < to ==> Reads(w(t), group)
  }

  // ----- LRU

  /** Nothing outside the group has been touched since k. */
  ghost predicate Recent(m: map<Key, Rank>, group: set<Key>, k: Key) {
    k in group && k in m && forall j :: j in m && j !in group ==> m[j].last < m[k].last
  }

  lemma TouchRecent(s: St, g: Key, group: set<Key>, k: Key)
    requires Recent(Ranks(s.hist), group, k) && g in group
    ensures Recent(Ranks(Look(s, g).hist), group, k)
  {
    RanksDistinct(s.hist);
    RanksSnoc(s.hist, Got(g));
  }

  lemma {:induction false} LookAllRecent(s: St, ks: seq<Key>, group: set<Key>, k: Key)
    requires Recent(Ranks(s.hist), group, k) && forall g :: g in ks ==> g in group
    ensures Recent(Ranks(LookAll(s, ks).hist), group, k)
    decreases |ks|
  {
    if ks != [] {
      TouchRecent(s, ks[0], group, k);
      LookAllRecent(Look(s, ks[0]), ks[1..], group, k);
    }
  }

  lemma YieldRecent(w: World, s: St, group: set<Key>, k: Key)
    requires Recent(Ranks(s.hist), group, k) && Only(w, group)
    ensures Recent(Ranks(Yield(w, s).hist), group, k)
  {
    assert Reads(w(s.t), group);
    LookAllRecent(Publish(s), w(s.t).gets, group, k);
  }

  lemma DeleteRecent(cfg: Config, w: World, s: St, j: Key, group: set<Key>, k: Key)
    requires Recent(Ranks(s.hist), group, k) && Only(w, group) && j != k
    ensures Recent(Ranks(DeleteLocked(cfg, w, s, j).0.hist), group, k)
  {
    var (a, ok) := Append(cfg, w, s, DeleteEntry(j));
    YieldRecent(w, s, group, k);
    YieldRecent(w, s.(log := s.log + [DeleteEntry(j)]), group, k);
    if ok && j in a.items {
      RanksSnoc(a.hist, Dropped(j));
      YieldRecent(w, Remove(a, j), group, k);
    }
  }

  /** What k needs for the next round of an LRU loop. */
  ghost predicate Safe(cfg: Config, s: St, need: int, group: set<Key>, k: Key, v: Bytes) {
    && Recent(Ranks(s.hist), group, k) && k in s.items && s.items[k].value == v
    && need + Together(s.items, group) <= cfg.capacity
  }

  lemma GroupFits(cfg: Config, s: St, need: int, group: set<Key>)
    requires s.items.Keys <= group && Drift(s) >= 0 && need + Together(s.items, group) <= cfg.capacity
    ensures Roomy(cfg, s, need)
  {
    assert Restricted(s.items, group) == s.items;
  }

  /** While there is no room some live key lies outside the group, so k is not the victim. */
  lemma RecentNotVictim(cfg: Config, w: World, s: St, need: int, group: set<Key>, k: Key, v: Bytes, j: Key)
    requires Safe(cfg, s, need, group, k, v) && InStep(s) && Drift(s) >= 0 && !Roomy(cfg, s, need)
    requires Only(w, group) && IsVictim(Lru, Ranks(Yield(w, s).hist), j)
    ensures j != k
  {
    YieldInStep(w, s);
    YieldSettles(w, s);
    YieldRecent(w, s, group, k);
    if j == k {
      assert s.items.Keys <= group;
      GroupFits(cfg, s, need, group);
    }
  }

  lemma RecentRound(cfg: Config, w: World, s: St, need: int, count: nat, attempted: set<Key>,
                    group: set<Key>, k: Key, v: Bytes, e: Evicted)
    returns (j: Key, d: St)
    requires e == Evict(cfg, w, s, need, count, attempted)
    requires Only(w, group) && cfg.kind == Lru && Calm(cfg, w, s, attempted)
    requires Safe(cfg, s, need, group, k, v) && count < MAX_EVICTIONS && !Roomy(cfg, s, need)
    ensures Calm(cfg, w, d, attempted + {j}) && Safe(cfg, d, need, group, k, v)
    ensures e == Evict(cfg, w, d, need, count + 1, attempted + {j})
  {
    var c;
    j, c, d := RoundIs(cfg, w, s, need, count, attempted);
    RecentNotVictim(cfg, w, s, need, group, k, v, j);
    YieldRecent(w, s, group, k);
    YieldRecent(w, Yield(w, s), group, k);
    DeleteRecent(cfg, w, c, j, group, k);
    TogetherShrinks(s.items, d.items, group);
  }

  lemma {:induction false} LoopKeepsRecent(cfg: Config, w: World, s: St, need: int, count: nat, attempted: set<Key>,
                                            group: set<Key>, k: Key, v: Bytes, e: Evicted)
    requires e == Evict(cfg, w, s, need, count, attempted)
    requires Only(w, group) && cfg.kind == Lru && Calm(cfg, w, s, attempted) && Safe(cfg, s, need, group, k, v)
    ensures k in e.s.items && e.s.items[k].value == v
    decreases MAX_EVICTIONS - count
  {
    if count < MAX_EVICTIONS && !Roomy(cfg, s, need) {
      var j, d := RecentRound(cfg, w, s, need, count, attempted, group, k, v, e);
      LoopKeepsRecent(cfg, w, d, need, count + 1, attempted + {j}, group, k, v, e);
    }
  }

  lemma ConfinedOnly(w: World, group: set<Key>, from: nat, to: nat)
    requires OnlyIn(w, group, from, to)
    ensures Only(Confined(w, from, to), group)
  {
  }

  /** On an LRU node a loop during which no fault occurs spares a key that, with the keys read since
      it was written and during the loop, leaves room for the need. */
  lemma EvictKeepsRecent(cfg: Config, w: World, s: St, need: int, group: set<Key>, k: Key, v: Bytes, e: Evicted)
    requires e == Evict(cfg, w, s, need, 0, {}) && cfg.kind == Lru && Undisturbed(cfg, w, s, e.s.t)
    requires OnlyIn(w, group, s.t, e.s.t) && Safe(cfg, s, need, group, k, v)
    ensures k in e.s.items && e.s.items[k].value == v
  {
    var w' := Confined(w, s.t, e.s.t);
    ConfinedFaultless(cfg, w, s.t, e.s.t);
    ConfinedOnly(w, group, s.t, e.s.t);
    EvictLocal(cfg, w, w', s, need, 0, {}, e);
    LoopKeepsRecent(cfg, w', s, need, 0, {}, group, k, v, e);
  }

  /** The newest key, in a group that fits into half the capacity. */
  ghost predicate Sheltered(cfg: Config, s: St, group: set<Key>, k: Key, v: Bytes) {
    && Recent(Ranks(s.hist), group, k) && k in s.items && s.items[k].value == v
    && Together(s.items, group) <= cfg.capacity / 2
  }

  lemma YieldSheltered(cfg: Config, w: World, s: St, group: set<Key>, k: Key, v: Bytes)
    requires Sheltered(cfg, s, group, k, v) && Only(w, group)
    ensures Sheltered(cfg, Yield(w, s), group, k, v)
  {
    YieldRecent(w, s, group, k);
    YieldSettles(w, s);
    TogetherShrinks(s.items, Yield(w, s).items, group);
  }

  lemma YieldsKeep(cfg: Config, w: World, s: St)
    requires Inv(cfg, s) && InStep(s)
    ensures Inv(cfg, Yield(w, s)) && InStep(Yield(w, s))
  {
    YieldInStep(w, s);
    YieldSettles(w, s);
    InvSettles(cfg, s, Yield(w, s));
  }

  lemma ProactiveKeepsRecent(cfg: Config, w: World, s: St, group: set<Key>, k: Key, v: Bytes)
    requires Only(w, group) && Faultless(cfg, w) && !cfg.ml && cfg.kind == Lru
    requires InStep(s) && Inv(cfg, s) && Sheltered(cfg, s, group, k, v)
    ensures k in Proactive(cfg, w, s).items && Proactive(cfg, w, s).items[k].value == v
  {
    var y, need := Yield(w, s), s.used - cfg.capacity / 2;
    YieldSheltered(cfg, w, s, group, k, v);
    YieldsKeep(cfg, w, s);
    LoopKeepsRecent(cfg, w, y, need, 0, {}, group, k, v, Evict(cfg, w, y, need, 0, {}));
  }

  lemma InsertedSheltered(cfg: Config, e: St, group: set<Key>, k: Key, v: Bytes)
    requires k in group && Together(e.items - {k}, group) + |v| <= cfg.capacity / 2
    ensures Sheltered(cfg, Insert(e, k, v), group, k, v)
  {
    RanksDistinct(e.hist);
    RanksSnoc(e.hist, Stored(k));
    TogetherWith(e.items, group, k, Item(v, |v|, 1));
  }

  /** The state a successful Set has reached when it inserts. */
  lemma BeforeTrigger(cfg: Config, w: World, s: St, k: Key, v: Bytes, ttl: int) returns (a: St, e: St, i: St)
    requires Faultless(cfg, w) && Inv(cfg, s) && InStep(s) && Set(cfg, w, s, k, v, ttl).1 == Done
    ensures a == Append(cfg, w, s, SetEntry(k, v, ttl)).0
    ensures e == MakeRoom(cfg, w, a, k, v).s && i == Insert(e, k, v)
    ensures Set(cfg, w, s, k, v, ttl).0 == Trigger(cfg, w, Yield(w, i))
    ensures e.items.Keys <= s.items.Keys && forall j :: j in e.items ==> e.items[j].size == s.items[j].size
    ensures Inv(cfg, i) && InStep(i)
    ensures Inv(cfg, Yield(w, i)) && InStep(Yield(w, i))
    ensures Inv(cfg, Yield(w, Yield(w, i))) && InStep(Yield(w, Yield(w, i)))
  {
    a := Append(cfg, w, s, SetEntry(k, v, ttl)).0;
    AppendSettles(cfg, w, s, SetEntry(k, v, ttl));
    InvSettles(cfg, s, a);
    RoomKeeps(cfg, w, a, k, v);
    e := MakeRoom(cfg, w, a, k, v).s;
    i := InsertsInto(cfg, w, s, k, v, ttl);
    YieldsKeep(cfg, w, i);
    YieldsKeep(cfg, w, Yield(w, i));
  }

  lemma SetKeepsRecent(cfg: Config, w: World, s: St, k: Key, v: Bytes, ttl: int, group: set<Key>)
    requires Faultless(cfg, w) && !cfg.ml && cfg.kind == Lru
    requires Inv(cfg, s) && InStep(s) && Set(cfg, w, s, k, v, ttl).1 == Done
    requires Only(w, group) && k in group && Together(s.items - {k}, group) + |v| <= cfg.capacity / 2
    ensures var s' := Set(cfg, w, s, k, v, ttl).0;
            k in s'.items && s'.items[k].value == v
  {
    var a, e, i := BeforeTrigger(cfg, w, s, k, v, ttl);
    TogetherShrinks(s.items - {k}, e.items - {k}, group);
    InsertedSheltered(cfg, e, group, k, v);
    YieldSheltered(cfg, w, i, group, k, v);
    YieldSheltered(cfg, w, Yield(w, i), group, k, v);
    ProactiveKeepsRecent(cfg, w, Yield(w, Yield(w, i)), group, k, v);
  }

  /** A successful Set during which no fault occurs leaves its key live with its value on an LRU node,
      after both the eviction that makes room and the proactive pass, if the value and the other keys
      read during the Set fit into half the capacity. */
  lemma LruKeepsRecentWrite(cfg: Config, w: World, s: St, k: Key, v: Bytes, ttl: int, group: set<Key>)
    requires FaultlessIn(cfg, w, s.t, Set(cfg, w, s, k, v, ttl).0.t) && !cfg.ml && cfg.kind == Lru
    requires Inv(cfg, s) && InStep(s) && Set(cfg, w, s, k, v, ttl).1 == Done
    requires OnlyIn(w, group, s.t, Set(cfg, w, s, k, v, ttl).0.t)
    requires k in group && Together(s.items - {k}, group) + |v| <= cfg.capacity / 2
    ensures var s' := Set(cfg, w, s, k, v, ttl).0;
            k in s'.items && s'.items[k].value == v
  {
    var to := Set(cfg, w, s, k, v, ttl).0.t;
    ConfinedFaultless(cfg, w, s.t, to);
    ConfinedOnly(w, group, s.t, to);
    SetLocal(cfg, w, Confined(w, s.t, to), s, k, v, ttl);
    SetKeepsRecent(cfg, Confined(w, s.t, to), s, k, v, ttl, group);
  }

  lemma AloneTogether(items: Items, k: Key)
    ensures Together(items - {k}, {k}) == 0
  {
    assert Restricted(items - {k}, {k}) == map[];
  }

  /** With no other key read during the Set, half the capacity is enough. */
  lemma LruKeepsRecentWriteUndisturbed(cfg: Config, w: World, s: St, k: Key, v: Bytes, ttl: int)
    requires FaultlessIn(cfg, w, s.t, Set(cfg, w, s, k, v, ttl).0.t) && !cfg.ml && cfg.kind == Lru
    requires Inv(cfg, s) && InStep(s) && Set(cfg, w, s, k, v, ttl).1 == Done
    requires OnlyIn(w, {k}, s.t, Set(cfg, w, s, k, v, ttl).0.t) && |v| <= cfg.capacity / 2
    ensures var s' := Set(cfg, w, s, k, v, ttl).0;
            k in s'.items && s'.items[k].value == v
  {
    AloneTogether(s.items, k);
    LruKeepsRecentWrite(cfg, w, s, k, v, ttl, {k});
  }

  // ----- a fresh write given up at once

  lemma LoopDropsVictim(cfg: Config, w: World, s: St, need: int, k: Key, e: Evicted)
    requires e == Evict(cfg, w, s, need, 0, {}) && Calm(cfg, w, s, {}) && k in s.items && !Roomy(cfg, s, need)
    requires IsVictim(cfg.kind, AtPick(w, s), k)
    ensures k !in e.s.items
  {
    var j, c, d := RoundIs(cfg, w, s, need, 0, {});
    VictimUnique(cfg.kind, AtPick(w, s), j, k);
    OnlyLess(cfg, w, d, need, 1, {} + {j}, e);
  }

  lemma EvictDropsVictim(cfg: Config, w: World, s: St, need: int, k: Key, e: Evicted)
    requires e == Evict(cfg, w, s, need, 0, {}) && Undisturbed(cfg, w, s, e.s.t) && k in s.items
    requires !Roomy(cfg, s, need) && IsVictim(cfg.kind, AtPick(w, s), k)
    ensures k !in e.s.items
  {
    var w' := Confined(w, s.t, e.s.t);
    ConfinedFaultless(cfg, w, s.t, e.s.t);
    EvictLocal(cfg, w, w', s, need, 0, {}, e);
    EvictPicks(cfg, w, s, need, 0, {}, e);
    YieldLocal(w, w', s);
    LoopDropsVictim(cfg, w', s, need, k, e);
  }

  lemma PassRuns(cap: nat, used: int)
    requires 2 * used > cap + cap / 2
    ensures 2 * used > cap && used - cap / 2 > cap / 20 && used + (used - cap / 2) > cap
  {
  }

  /** After m the keys ks were read, from position from of the history on. */
  ghost predicate Read(m: map<Key, Rank>, m': map<Key, Rank>, from: nat, ks: seq<Key>) {
    && m'.Keys == m.Keys
    && forall j :: j in m ==>
         if j in ks then m'[j].touches > m[j].touches && m'[j].last >= from else m'[j] == m[j]
  }

  lemma {:induction false} LookAllRead(s: St, ks: seq<Key>)
    requires InStep(s)
    ensures Read(Ranks(s.hist), Ranks(LookAll(s, ks).hist), |s.hist|, ks)
    ensures |s.hist| <= |LookAll(s, ks).hist| && LookAll(s, ks).t == s.t
    decreases |ks|
  {
    if ks != [] {
      RanksSnoc(s.hist, Got(ks[0]));
      LookAllRead(Look(s, ks[0]), ks[1..]);
    }
  }

  lemma ReadTrans(m: map<Key, Rank>, m': map<Key, Rank>, m'': map<Key, Rank>, a: nat, b: nat,
                  ks: seq<Key>, ls: seq<Key>)
    requires Read(m, m', a, ks) && Read(m', m'', b, ls) && a <= b
    ensures Read(m, m'', a, ks + ls)
  {
  }

  lemma YieldRead(w: World, s: St)
    requires InStep(s)
    ensures InStep(Yield(w, s)) && Yield(w, s).t == s.t + 1 && |s.hist| <= |Yield(w, s).hist|
    ensures Read(Ranks(s.hist), Ranks(Yield(w, s).hist), |s.hist|, w(s.t).gets)
    ensures Yield(w, s).items.Keys == s.items.Keys && Yield(w, s).used == s.used && Drift(Yield(w, s)) == Drift(s)
  {
    LookAllRead(Publish(s), w(s.t).gets);
    YieldInStep(w, s);
    YieldSettles(w, s);
  }

  function ReadTwice(w: World, t: nat): seq<Key> {
    w(t).gets + w(t + 1).gets
  }

  /** The keys read while the mutex is free between an insertion at t and the first pick of the pass. */
  function ReadMeanwhile(w: World, t: nat): seq<Key> {
    ReadTwice(w, t) + ReadTwice(w, t + 2)
  }

  /** From s to y the keys ks were read. */
  ghost predicate ReadOn(s: St, y: St, ks: seq<Key>) {
    |s.hist| <= |y.hist| && Read(Ranks(s.hist), Ranks(y.hist), |s.hist|, ks)
  }

  lemma ReadOnTrans(s: St, y: St, p: St, ks: seq<Key>, ls: seq<Key>)
    requires ReadOn(s, y, ks) && ReadOn(y, p, ls)
    ensures ReadOn(s, p, ks + ls)
  {
    ReadTrans(Ranks(s.hist), Ranks(y.hist), Ranks(p.hist), |s.hist|, |y.hist|, ks, ls);
  }

  ghost function Twice(w: World, s: St): St {
    Yield(w, Yield(w, s))
  }

  lemma TwiceRead(w: World, s: St)
    requires InStep(s)
    ensures InStep(Twice(w, s)) && Twice(w, s).t == s.t + 2 && ReadOn(s, Twice(w, s), ReadTwice(w, s.t))
    ensures Twice(w, s).items.Keys == s.items.Keys && Twice(w, s).used == s.used && Drift(Twice(w, s)) == Drift(s)
  {
    YieldRead(w, s);
    var y := Yield(w, s);
    YieldRead(w, y);
    ReadOnTrans(s, y, Yield(w, y), w(s.t).gets, w(y.t).gets);
  }

  /** What the policy goes by at the first pick of the proactive pass. */
  ghost function AtFirstPick(w: World, i: St): St {
    Twice(w, Twice(w, i))
  }

  lemma FirstPickRead(w: World, i: St, y: St, p: St)
    requires ReadOn(i, y, ReadTwice(w, i.t)) && y.t == i.t + 2 && ReadOn(y, p, ReadTwice(w, y.t))
    ensures ReadOn(i, p, ReadMeanwhile(w, i.t))
  {
    ReadOnTrans(i, y, p, ReadTwice(w, i.t), ReadTwice(w, y.t));
  }

  lemma AtFirstPickRead(w: World, i: St, y: St, p: St)
    requires InStep(i) && y == Twice(w, i) && p == Twice(w, y)
    ensures ReadOn(i, p, ReadMeanwhile(w, i.t))
  {
    TwiceRead(w, i);
    TwiceRead(w, y);
    FirstPickRead(w, i, y, p);
  }

  /** The state a Set of a new key that fits as things are inserts into. */
  function AtInsert(cfg: Config, w: World, s: St, k: Key, v: Bytes, ttl: int): St {
    Yield(w, Append(cfg, w, s, SetEntry(k, v, ttl)).0)
  }

  lemma FittingSet(cfg: Config, w: World, s: St, k: Key, v: Bytes, ttl: int)
    requires FaultlessIn(cfg, w, s.t, Set(cfg, w, s, k, v, ttl).0.t)
    requires InStep(s) && k !in s.items && |v| <= cfg.capacity && s.used + |v| <= cfg.capacity
    ensures var b := AtInsert(cfg, w, s, k, v, ttl);
            && b.items.Keys == s.items.Keys && b.used == s.used && Drift(b) == Drift(s) && InStep(b) && b.t == s.t + 2
            && Set(cfg, w, s, k, v, ttl) == (Trigger(cfg, w, Yield(w, Insert(b, k, v))), Done)
            && exists ks :: Read(Ranks(s.hist), Ranks(b.hist), |s.hist|, ks)
  {
    var a, b := Append(cfg, w, s, SetEntry(k, v, ttl)).0, AtInsert(cfg, w, s, k, v, ttl);
    SetTimes(cfg, w, s, k, v, ttl);
    assert Sure(cfg, w(s.t));
    YieldRead(w, s);
    YieldRead(w, s.(log := s.log + [SetEntry(k, v, ttl)]));
    YieldRead(w, a);
    ReadTrans(Ranks(s.hist), Ranks(a.hist), Ranks(b.hist), |s.hist|, |a.hist|, w(s.t).gets, w(a.t).gets);
    assert Subtract(a, k) == a;
    assert MakeRoom(cfg, w, a, k, v) == Evicted(b, Fits, 0);
    assert Sure(cfg, w(b.t));
  }

  /** A Set, during which no fault occurs, of a new key that fits, but brings the bytes above three
      quarters of the capacity. */
  ghost predicate Crowding(cfg: Config, w: World, s: St, k: Key, v: Bytes, ttl: int) {
    && FaultlessIn(cfg, w, s.t, Set(cfg, w, s, k, v, ttl).0.t) && !cfg.ml && InStep(s) && Drift(s) >= 0 && k !in s.items
    && |v| <= cfg.capacity && s.used + |v| <= cfg.capacity && 2 * (s.used + |v|) > cfg.capacity + cfg.capacity / 2
  }

  lemma PassDrops(cfg: Config, w: World, s: St, k: Key, y: St)
    requires Undisturbed(cfg, w, s, Proactive(cfg, w, s).t) && k in s.items && y == Yield(w, s)
    requires 2 * s.used > cfg.capacity + cfg.capacity / 2 && IsVictim(cfg.kind, AtPick(w, y), k)
    ensures k !in Proactive(cfg, w, s).items
  {
    YieldRead(w, s);
    PassRuns(cfg.capacity, s.used);
    var need := s.used - cfg.capacity / 2;
    EvictDropsVictim(cfg, w, y, need, k, Evict(cfg, w, y, need, 0, {}));
  }

  /** A node in this state gives k up at once if k is the policy's victim at the first pick. */
  lemma TriggerDrops(cfg: Config, w: World, i: St, k: Key, y: St, s': St)
    requires s' == Trigger(cfg, w, Yield(w, i)) && y == Twice(w, i)
    requires Undisturbed(cfg, w, i, s'.t) && k in i.items
    requires 2 * i.used > cfg.capacity + cfg.capacity / 2 && IsVictim(cfg.kind, Ranks(Twice(w, y).hist), k)
    ensures k !in s'.items
  {
    TwiceRead(w, i);
    PassRuns(cfg.capacity, i.used);
    PassDrops(cfg, w, y, k, Yield(w, y));
  }

  /** Such a Set succeeds, and loses its own key at once if that key is the policy's victim at the
      first pick of the proactive pass. */
  lemma OwnVictim(cfg: Config, w: World, s: St, k: Key, v: Bytes, ttl: int, i: St)
    requires Crowding(cfg, w, s, k, v, ttl) && i == Insert(AtInsert(cfg, w, s, k, v, ttl), k, v)
    requires IsVictim(cfg.kind, Ranks(AtFirstPick(w, i).hist), k)
    ensures Set(cfg, w, s, k, v, ttl).1 == Done && k !in Set(cfg, w, s, k, v, ttl).0.items
  {
    FittingSet(cfg, w, s, k, v, ttl);
    InsertInStep(AtInsert(cfg, w, s, k, v, ttl), k, v);
    InsertDrift(AtInsert(cfg, w, s, k, v, ttl), k, v);
    TriggerDrops(cfg, w, i, k, Twice(w, i), Set(cfg, w, s, k, v, ttl).0);
  }

  /** From m, k was stored at position at, as a new key, and then the keys ks were read. */
  ghost predicate FreshPick(m: map<Key, Rank>, p: map<Key, Rank>, k: Key, at: nat, ks: seq<Key>) {
    && k !in m && p.Keys == m.Keys + {k}
    && (k !in ks ==> p[k] == Rank(1, at))
    && forall j :: j in m ==> p[j].touches >= m[j].touches && if j in ks then p[j].last > at else p[j].last < at
  }

  lemma InsertedPick(m: map<Key, Rank>, b: map<Key, Rank>, p: map<Key, Rank>, k: Key, at: nat, from: nat,
                     ks: seq<Key>, ls: seq<Key>)
    requires k !in m && Read(m, b, from, ks) && Read(b[k := Rank(1, at)], p, at + 1, ls)
    requires forall j :: j in b ==> b[j].last < at
    ensures FreshPick(m, p, k, at, ls)
  {
    forall j | j in m
      ensures p[j].touches >= m[j].touches && if j in ls then p[j].last > at else p[j].last < at
    {
      assert b[k := Rank(1, at)][j] == b[j];
    }
  }

  /** What the policy goes by when a Set of a new key that fits inserts it, and at the first pick. */
  lemma FreshRanks(cfg: Config, w: World, s: St, k: Key, v: Bytes, ttl: int, i: St)
    requires Crowding(cfg, w, s, k, v, ttl) && i == Insert(AtInsert(cfg, w, s, k, v, ttl), k, v)
    ensures FreshPick(Ranks(s.hist), Ranks(AtFirstPick(w, i).hist), k, |i.hist| - 1, ReadMeanwhile(w, s.t + 2))
  {
    FittingSet(cfg, w, s, k, v, ttl);
    var b := AtInsert(cfg, w, s, k, v, ttl);
    InsertInStep(b, k, v);
    RanksDistinct(b.hist);
    RanksSnoc(b.hist, Stored(k));
    AtFirstPickRead(w, i, Twice(w, i), AtFirstPick(w, i));
    var ks :| Read(Ranks(s.hist), Ranks(b.hist), |s.hist|, ks);
    InsertedPick(Ranks(s.hist), Ranks(b.hist), Ranks(AtFirstPick(w, i).hist), k, |b.hist|, |s.hist|, ks,
                 ReadMeanwhile(w, i.t));
  }

  /** On an LFU node whose other keys have all been touched again, such a Set gives its key up at
      once, however small the value, unless that key is read before the pass picks. */
  lemma LfuDropsFreshWrite(cfg: Config, w: World, s: St, k: Key, v: Bytes, ttl: int)
    requires Crowding(cfg, w, s, k, v, ttl) && cfg.kind == Lfu
    requires forall j :: j in Ranks(s.hist) ==> Ranks(s.hist)[j].touches >= 2
    requires k !in ReadMeanwhile(w, s.t + 2)
    ensures Set(cfg, w, s, k, v, ttl).1 == Done && k !in Set(cfg, w, s, k, v, ttl).0.items
  {
    var i := Insert(AtInsert(cfg, w, s, k, v, ttl), k, v);
    FreshRanks(cfg, w, s, k, v, ttl, i);
    OwnVictim(cfg, w, s, k, v, ttl, i);
  }

  /** On an LRU node too, if every other live key is read before the pass picks and the new one is
      not. */
  lemma LruDropsOvertakenWrite(cfg: Config, w: World, s: St, k: Key, v: Bytes, ttl: int)
    requires Crowding(cfg, w, s, k, v, ttl) && cfg.kind == Lru
    requires k !in ReadMeanwhile(w, s.t + 2) && forall j :: j in s.items ==> j in ReadMeanwhile(w, s.t + 2)
    ensures Set(cfg, w, s, k, v, ttl).1 == Done && k !in Set(cfg, w, s, k, v, ttl).0.items
  {
    var i := Insert(AtInsert(cfg, w, s, k, v, ttl), k, v);
    FreshRanks(cfg, w, s, k, v, ttl, i);
    OwnVictim(cfg, w, s, k, v, ttl, i);
  }

  // ----- exactly when

  lemma SameSpared(cfg: Config, s: St, y: St, need: int, ahead: set<Key>)
    requires Settles(s, y) && y.items.Keys == s.items.Keys && y.used == s.used
    ensures Spared(cfg, s.items, s.used, need, ahead) <==> Spared(cfg, y.items, y.used, need, ahead)
  {
    TogetherShrinks(s.items, y.items, ahead);
    TogetherShrinks(y.items, s.items, ahead);
  }

  /** A pass that does not run spares everything. */
  lemma IdlePassSpares(cfg: Config, items: Items, used: int, ahead: set<Key>)
    requires 2 * used <= cfg.capacity || used - cfg.capacity / 2 <= cfg.capacity / 20
    ensures Spared(cfg, items, used, used - cfg.capacity / 2, ahead)
  {
  }

  lemma RunPassKeepsExactly(cfg: Config, w: World, s: St, need: int, k: Key, y: St, m: map<Key, Rank>, e: Evicted)
    requires e == Evict(cfg, w, y, need, 0, {}) && k in y.items && m == AtPick(w, y)
    requires Undisturbed(cfg, w, y, e.s.t) && QuietIn(w, y.t + 1, e.s.t)
    requires Settles(s, y) && y.items.Keys == s.items.Keys && y.used == s.used
    ensures k in m
    ensures k in e.s.items <==> Spared(cfg, s.items, s.used, need, Ahead(cfg.kind, m, k))
  {
    SparesExactly(cfg, w, y, need, k, e);
    SameSpared(cfg, s, y, need, Ahead(cfg.kind, m, k));
  }

  lemma PassKeepsExactly(cfg: Config, w: World, s: St, k: Key, y: St, m: map<Key, Rank>, s': St)
    requires s' == Proactive(cfg, w, s) && y == Yield(w, s) && k in s.items && m == AtPick(w, y)
    requires Undisturbed(cfg, w, s, s'.t) && QuietIn(w, s.t + 2, s'.t)
    ensures k in m
    ensures k in s'.items <==>
            Spared(cfg, s.items, s.used, s.used - cfg.capacity / 2, Ahead(cfg.kind, m, k))
  {
    var need := s.used - cfg.capacity / 2;
    YieldRead(w, s);
    YieldSettles(w, s);
    if need > cfg.capacity / 20 {
      RunPassKeepsExactly(cfg, w, s, need, k, y, m, Evict(cfg, w, y, need, 0, {}));
    } else {
      YieldRead(w, y);
      IdlePassSpares(cfg, s.items, s.used, Ahead(cfg.kind, m, k));
    }
  }

  lemma TwiceSettles(w: World, s: St)
    ensures Settles(s, Twice(w, s))
  {
    YieldSettles(w, s);
    YieldSettles(w, Yield(w, s));
    SettlesTrans(s, Yield(w, s), Twice(w, s));
  }

  lemma TriggerKeepsExactly(cfg: Config, w: World, i: St, k: Key, y: St, p: St, s': St)
    requires y == Twice(w, i) && p == Twice(w, y) && s' == Trigger(cfg, w, Yield(w, i)) && k in i.items
    requires Undisturbed(cfg, w, i, s'.t) && QuietIn(w, i.t + 4, s'.t)
    ensures k in Ranks(p.hist)
    ensures k in s'.items <==>
            Spared(cfg, i.items, i.used, i.used - cfg.capacity / 2, Ahead(cfg.kind, Ranks(p.hist), k))
  {
    TwiceRead(w, i);
    TwiceRead(w, y);
    TwiceSettles(w, i);
    var ahead := Ahead(cfg.kind, Ranks(p.hist), k);
    if 2 * i.used <= cfg.capacity {
      IdlePassSpares(cfg, i.items, i.used, ahead);
    } else {
      PassKeepsExactly(cfg, w, y, k, Yield(w, y), Ranks(p.hist), s');
      SameSpared(cfg, i, y, i.used - cfg.capacity / 2, ahead);
    }
  }

  /** The state a Set inserts its key into. */
  ghost function Inserted(cfg: Config, w: World, s: St, k: Key, v: Bytes, ttl: int): St {
    Insert(Room(cfg, w, s, k, v, ttl).s, k, v)
  }

  lemma InsertedReachable(cfg: Config, w: World, s: St, k: Key, v: Bytes, ttl: int)
    requires FaultlessIn(cfg, w, s.t, Set(cfg, w, s, k, v, ttl).0.t) && Inv(cfg, s) && InStep(s)
    requires Set(cfg, w, s, k, v, ttl).1 == Done
    ensures var i := Inserted(cfg, w, s, k, v, ttl);
            && Inv(cfg, i) && InStep(i) && i.t >= s.t
            && Set(cfg, w, s, k, v, ttl).0 == Trigger(cfg, w, Yield(w, i))
  {
    var to := Set(cfg, w, s, k, v, ttl).0.t;
    var w' := Confined(w, s.t, to);
    ConfinedFaultless(cfg, w, s.t, to);
    SetTimes(cfg, w, s, k, v, ttl);
    SetLocal(cfg, w, w', s, k, v, ttl);
    var a, e, i := BeforeTrigger(cfg, w', s, k, v, ttl);
  }

  /** A successful Set on an LFU or LRU node, during which no fault occurs and no Get after the first
      pick of its proactive pass, leaves its key live if and only if at least ten keys rank before it
      at that pick, or the bytes without those keys, and the excess over half the capacity, fit into
      the capacity. It then holds the value set. */
  lemma SetKeepsExactly(cfg: Config, w: World, s: St, k: Key, v: Bytes, ttl: int)
    requires FaultlessIn(cfg, w, s.t, Set(cfg, w, s, k, v, ttl).0.t) && !cfg.ml && Inv(cfg, s) && InStep(s)
    requires Set(cfg, w, s, k, v, ttl).1 == Done
    requires QuietIn(w, Inserted(cfg, w, s, k, v, ttl).t + 4, Set(cfg, w, s, k, v, ttl).0.t)
    ensures var s', i := Set(cfg, w, s, k, v, ttl).0, Inserted(cfg, w, s, k, v, ttl);
            var p := Ranks(AtFirstPick(w, i).hist);
            && k in p
            && (k in s'.items <==>
                  Spared(cfg, i.items, i.used, i.used - cfg.capacity / 2, Ahead(cfg.kind, p, k)))
            && (k in s'.items ==> s'.items[k].value == v)
  {
    var s', i := Set(cfg, w, s, k, v, ttl).0, Inserted(cfg, w, s, k, v, ttl);
    InsertedReachable(cfg, w, s, k, v, ttl);
    TriggerKeepsExactly(cfg, w, i, k, Twice(w, i), AtFirstPick(w, i), s');
    YieldSettles(w, i);
    TriggerSettles(cfg, w, Yield(w, i));
    SettlesTrans(i, Yield(w, i), s');
  }

  // ----- exactly when, told before the call

  /** The keys that rank before k once it is set. */
  ghost function Rivals(kind: Kind, m: map<Key, Rank>, k: Key): set<Key> {
    set j | j in m && j != k && (kind == Lru || m[j].touches <= (if k in m then m[k].touches else 0) + 1)
  }

  lemma RivalsAreAhead(kind: Kind, h: seq<Event>, k: Key)
    ensures k in Ranks(h + [Stored(k)])
    ensures Ahead(kind, Ranks(h + [Stored(k)]), k) == Rivals(kind, Ranks(h), k)
  {
    RanksDistinct(h);
    RanksSnoc(h, Stored(k));
  }

  lemma RivalsDecide(cfg: Config, s: St, i: St, k: Key, v: Bytes)
    requires i.items == s.items[k := Item(v, |v|, 1)] && i.hist == s.hist + [Stored(k)] && i.used == UsedWith(s, k, v)
    ensures k in Ranks(i.hist)
    ensures Spared(cfg, i.items, i.used, i.used - cfg.capacity / 2, Ahead(cfg.kind, Ranks(i.hist), k)) <==>
            Spared(cfg, s.items, UsedWith(s, k, v), UsedWith(s, k, v) - cfg.capacity / 2,
                   Rivals(cfg.kind, Ranks(s.hist), k))
  {
    RivalsAreAhead(cfg.kind, s.hist, k);
    var rivals := Rivals(cfg.kind, Ranks(s.hist), k);
    assert Restricted(i.items, rivals) == Restricted(s.items, rivals);
  }

  lemma QuietTwice(w: World, s: St)
    requires QuietFrom(w, s.t)
    ensures Twice(w, s).hist == s.hist && Twice(w, s).t == s.t + 2
  {
    QuietYield(w, s);
    QuietYield(w, Yield(w, s));
  }

  lemma QuietFirstPick(w: World, i: St)
    requires QuietFrom(w, i.t)
    ensures AtFirstPick(w, i).hist == i.hist
  {
    QuietTwice(w, i);
    QuietTwice(w, Twice(w, i));
  }

  /** A fitting Set in a world without Gets and faults inserts into what was there. */
  lemma SilentInsert(cfg: Config, w: World, s: St, k: Key, v: Bytes, ttl: int)
    requires QuietFrom(w, 0) && Faultless(cfg, w) && |v| <= cfg.capacity && UsedWith(s, k, v) <= cfg.capacity
    ensures Set(cfg, w, s, k, v, ttl).1 == Done
    ensures var i := Inserted(cfg, w, s, k, v, ttl);
            && i.items == s.items[k := Item(v, |v|, 1)] && i.hist == s.hist + [Stored(k)] && i.used == UsedWith(s, k, v)
  {
    assert Sure(cfg, w(s.t));
    var a := Append(cfg, w, s, SetEntry(k, v, ttl)).0;
    QuietYield(w, s);
    QuietYield(w, s.(log := s.log + [SetEntry(k, v, ttl)]));
    QuietYield(w, Subtract(a, k));
    assert MakeRoom(cfg, w, a, k, v) == Evicted(Yield(w, Subtract(a, k)), Fits, 0);
    assert Sure(cfg, w(Inserted(cfg, w, s, k, v, ttl).t));
  }

  lemma SilentKeepsExactly(cfg: Config, w: World, s: St, k: Key, v: Bytes, ttl: int)
    requires QuietFrom(w, 0) && Faultless(cfg, w) && !cfg.ml && Inv(cfg, s) && InStep(s)
    requires |v| <= cfg.capacity && UsedWith(s, k, v) <= cfg.capacity
    ensures Set(cfg, w, s, k, v, ttl).1 == Done
    ensures k in Set(cfg, w, s, k, v, ttl).0.items <==>
            Spared(cfg, s.items, UsedWith(s, k, v), UsedWith(s, k, v) - cfg.capacity / 2,
                   Rivals(cfg.kind, Ranks(s.hist), k))
  {
    var i := Inserted(cfg, w, s, k, v, ttl);
    SilentInsert(cfg, w, s, k, v, ttl);
    SetKeepsExactly(cfg, w, s, k, v, ttl);
    QuietFirstPick(w, i);
    RivalsDecide(cfg, s, i, k, v);
  }

  /** A Set that fits as things are, on an LFU or LRU node, during which no fault occurs and no Get:
      it succeeds, and its key stays live if and only if at least ten of the other keys rank before it
      (under LRU all of them, under LFU those touched no oftener), or the bytes without those keys,
      and the excess over half the capacity, fit into the capacity. */
  lemma FittingWriteKeptExactly(cfg: Config, w: World, s: St, k: Key, v: Bytes, ttl: int)
    requires FaultlessIn(cfg, w, s.t, Set(cfg, w, s, k, v, ttl).0.t) && QuietIn(w, s.t, Set(cfg, w, s, k, v, ttl).0.t)
    requires !cfg.ml && Inv(cfg, s) && InStep(s) && |v| <= cfg.capacity && UsedWith(s, k, v) <= cfg.capacity
    ensures Set(cfg, w, s, k, v, ttl).1 == Done
    ensures k in Set(cfg, w, s, k, v, ttl).0.items <==>
            Spared(cfg, s.items, UsedWith(s, k, v), UsedWith(s, k, v) - cfg.capacity / 2,
                   Rivals(cfg.kind, Ranks(s.hist), k))
  {
    var to := Set(cfg, w, s, k, v, ttl).0.t;
    ConfinedFaultless(cfg, w, s.t, to);
    SetLocal(cfg, w, Confined(w, s.t, to), s, k, v, ttl);
    SilentKeepsExactly(cfg, Confined(w, s.t, to), s, k, v, ttl);
  }
}
