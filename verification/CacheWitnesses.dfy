/**
  Inputs at which the cache does what its laws leave room for: a fresh write evicted by its own Set, a
  pass that stops above its target, overwrites after which counter, items and log disagree, and a victim
  the prediction service names against the policy.
 */
module CacheWitnesses {
  import opened Prelude
  import opened PolicyHistory
  import opened Breaker
  import opened CacheSpec
  import opened CacheAccounting
  import opened CacheChoice
  import opened CacheLog
  import opened CacheLosses
  import opened CachePolicyLaws
  import opened CacheRecency
  import opened CacheRecovery
  import opened CacheSurvival
  import opened WalCodec

  // ----- a world in which nothing happens by itself

  const NO_CALL := Call(0, 0, 0, TransportError)

  function Silence(): World {
    t => Choice([], NO_CALL, true, true)
  }

  function OffService(): Gate {
    Gate(false, 0, 0, 0)
  }

  function Node(capacity: nat, kind: Kind): Config {
    Config(capacity, kind, false, false, true, false)
  }

  /** What a state holds, apart from the views and the clock. */
  ghost predicate Holds(s: St, items: Items, used: int, hist: seq<Event>, log: seq<Entry>) {
    s.items == items && s.used == used && s.hist == hist && s.log == log
  }

  lemma SilentYield(s: St)
    ensures Holds(Yield(Silence(), s), s.items, s.used, s.hist, s.log)
  {
    assert LookAll(Publish(s), []) == Publish(s);
  }

  lemma SilentAppend(cfg: Config, s: St, e: Entry)
    requires Writes(cfg)
    ensures Append(cfg, Silence(), s, e).1
    ensures Holds(Append(cfg, Silence(), s, e).0, s.items, s.used, s.hist, s.log + [e])
  {
    SilentYield(s.(log := s.log + [e]));
  }

  lemma SilentDelete(cfg: Config, s: St, k: Key)
    requires Writes(cfg) && k in s.items
    ensures Holds(DeleteLocked(cfg, Silence(), s, k).0, s.items - {k}, s.used - s.items[k].size,
                  s.hist + [Dropped(k)], s.log + [DeleteEntry(k)])
  {
    var a := Append(cfg, Silence(), s, DeleteEntry(k)).0;
    SilentAppend(cfg, s, DeleteEntry(k));
    SilentYield(Remove(a, k));
  }

  /** A loop that one eviction satisfies. */
  lemma SilentEviction(cfg: Config, s: St, need: int, j: Key)
    requires Writes(cfg) && !cfg.ml && InStep(s) && Drift(s) >= 0
    requires IsVictim(cfg.kind, Ranks(s.hist), j) && j in s.items
    requires !Roomy(cfg, s, need) && s.used - s.items[j].size + need <= cfg.capacity
    ensures Holds(Evict(cfg, Silence(), s, need, 0, {}).s, s.items - {j}, s.used - s.items[j].size,
                  s.hist + [Dropped(j)], s.log + [DeleteEntry(j)])
  {
    var w := Silence();
    var k, c, d := RoundIs(cfg, w, s, need, 0, {});
    SilentYield(s);
    SilentYield(Yield(w, s));
    VictimUnique(cfg.kind, Ranks(s.hist), j, k);
    SilentDelete(cfg, c, j);
    Stops(cfg, w, d, need, 1, {} + {j});
  }

  lemma SilentCommit(cfg: Config, s: St, k: Key, v: Bytes)
    requires !cfg.ml && 2 * (s.used + |v|) <= cfg.capacity + cfg.capacity / 2
    ensures Holds(Commit(cfg, Silence(), s, k, v).0, s.items[k := Item(v, |v|, 1)], s.used + |v|,
                  s.hist + [Stored(k)], s.log)
    ensures Commit(cfg, Silence(), s, k, v).1 == Done
  {
    var w := Silence();
    var i := Insert(s, k, v);
    var y := Yield(w, i);
    SilentYield(i);
    SilentYield(y);
    SilentYield(Yield(w, y));
    Stops(cfg, w, Yield(w, Yield(w, y)), i.used - cfg.capacity / 2, 0, {});
  }

  /** A Set that fits, and whose pass has nothing to evict. */
  lemma SilentSet(cfg: Config, s: St, k: Key, v: Bytes)
    requires Writes(cfg) && !cfg.ml && |v| <= cfg.capacity && UsedWith(s, k, v) <= cfg.capacity
    requires 2 * UsedWith(s, k, v) <= cfg.capacity + cfg.capacity / 2
    ensures Holds(Set(cfg, Silence(), s, k, v, 0).0, s.items[k := Item(v, |v|, 1)], UsedWith(s, k, v),
                  s.hist + [Stored(k)], s.log + [SetEntry(k, v, 0)])
    ensures Set(cfg, Silence(), s, k, v, 0).1 == Done
  {
    var w := Silence();
    var a := Append(cfg, w, s, SetEntry(k, v, 0)).0;
    SilentAppend(cfg, s, SetEntry(k, v, 0));
    SilentYield(Subtract(a, k));
    SilentCommit(cfg, MakeRoom(cfg, w, a, k, v).s, k, v);
  }

  // ----- a fresh write given up at once

  lemma RunOne(cfg: Config, w: World, s: St, op: Op)
    ensures Run(cfg, w, s, [op]) == Do(cfg, w, s, op)
  {
    RunSnoc(cfg, w, s, [], op);
    assert [] + [op] == [op];
  }

  lemma RunThree(cfg: Config, w: World, s: St, a: Op, b: Op, c: Op)
    ensures Run(cfg, w, s, [a, b]) == Do(cfg, w, Do(cfg, w, s, a), b)
    ensures Run(cfg, w, s, [a, b, c]) == Do(cfg, w, Run(cfg, w, s, [a, b]), c)
  {
    RunOne(cfg, w, s, a);
    RunSnoc(cfg, w, s, [a], b);
    RunSnoc(cfg, w, s, [a, b], c);
    assert [a] + [b] == [a, b] && [a, b] + [c] == [a, b, c];
  }

  lemma TouchedTwice(k: Key, h: seq<Event>)
    requires h == [] + [Stored(k)] + [Got(k)]
    ensures Ranks(h) == map[k := Rank(2, 1)]
  {
    RanksSnoc([], Stored(k));
    RanksSnoc([] + [Stored(k)], Got(k));
  }

  /** A key set, then read: touched twice. */
  lemma SetThenRead(cfg: Config, gate: Gate, k: Key, v: Bytes, s: St)
    requires Writes(cfg) && !cfg.ml && 2 * |v| <= cfg.capacity + cfg.capacity / 2 && |v| <= cfg.capacity
    requires s == Run(cfg, Silence(), Empty(gate, []), [SetOp(k, v, 0), GetOp(k)])
    ensures s.items.Keys == {k} && s.used == |v| && Ranks(s.hist) == map[k := Rank(2, 1)]
  {
    RunThree(cfg, Silence(), Empty(gate, []), SetOp(k, v, 0), GetOp(k), GetOp(k));
    SilentSet(cfg, Empty(gate, []), k, v);
    TouchedTwice(k, s.hist);
  }

  /** LFU: set k, read it, set j so that the bytes exceed three quarters: j is gone. */
  lemma LfuLoses(cfg: Config, gate: Gate, k: Key, v: Bytes, j: Key, u: Bytes, s: St)
    requires Writes(cfg) && !cfg.ml && cfg.kind == Lfu && j != k && |v| + |u| <= cfg.capacity
    requires 2 * |v| <= cfg.capacity + cfg.capacity / 2 < 2 * (|v| + |u|)
    requires s == Run(cfg, Silence(), Empty(gate, []), [SetOp(k, v, 0), GetOp(k)])
    ensures Set(cfg, Silence(), s, j, u, 0).1 == Done && j !in Set(cfg, Silence(), s, j, u, 0).0.items
  {
    SetThenRead(cfg, gate, k, v, s);
    Reachable(cfg, Silence(), gate, [], [SetOp(k, v, 0), GetOp(k)]);
    assert Rivals(Lfu, Ranks(s.hist), j) == {};
    assert Restricted(s.items, {}) == map[];
    FittingWriteKeptExactly(cfg, Silence(), s, j, u, 0);
  }

  /** LFU, capacity 8: set a to four bytes, read it, set b to three: the Set succeeds, and b is gone. */
  lemma LfuLosesFreshWrite(cfg: Config, ops: seq<Op>)
    requires cfg == Node(8, Lfu) && ops == [SetOp("a", "1234", 0), GetOp("a"), SetOp("b", "123", 0)]
    ensures Set(cfg, Silence(), Run(cfg, Silence(), Empty(OffService(), []), ops[..2]), "b", "123", 0).1 == Done
    ensures "b" !in Run(cfg, Silence(), Empty(OffService(), []), ops).items
  {
    assert ops[..2] == [ops[0], ops[1]] && ops == [ops[0], ops[1], ops[2]];
    LfuLoses(cfg, OffService(), "a", "1234", "b", "123",
             Run(cfg, Silence(), Empty(OffService(), []), [ops[0], ops[1]]));
    RunThree(cfg, Silence(), Empty(OffService(), []), ops[0], ops[1], ops[2]);
  }

  /** A world in which k is read whenever the mutex is free. */
  function AlwaysReading(k: Key): World {
    t => Choice([k], NO_CALL, true, true)
  }

  /** One key set on an empty node, with room to spare. */
  lemma SetAlone(cfg: Config, w: World, gate: Gate, k: Key, v: Bytes, s: St)
    requires Writes(cfg) && w(0).appended && 2 * |v| <= cfg.capacity + cfg.capacity / 2 && |v| <= cfg.capacity
    requires s == Set(cfg, w, Empty(gate, []), k, v, 0).0
    ensures s.items.Keys == {k} && s.used == |v| && Drift(s) == 0
  {
    EmptyInv(cfg, gate, []);
    assert Empty(gate, []).items - {k} == map[];
    RoomySet(cfg, w, Empty(gate, []), k, v, 0);
    assert Live(s.items) == map[k := v];
    assert s.items.Keys == Live(s.items).Keys && s.items[k].value == Live(s.items)[k];
    TotalWithout(s.items, k);
    assert s.items - {k} == map[];
  }

  lemma OnlyReads(w: World, t: nat, k: Key)
    requires w == AlwaysReading(k)
    ensures forall j :: j in ReadMeanwhile(w, t) <==> j == k
  {
    assert ReadMeanwhile(w, t) == [k, k, k, k];
  }

  /** LRU: set k while it is always being read, set j so that the bytes exceed three quarters. */
  lemma LruLoses(cfg: Config, gate: Gate, k: Key, v: Bytes, j: Key, u: Bytes, s: St)
    requires Writes(cfg) && !cfg.ml && cfg.kind == Lru && j != k && |v| + |u| <= cfg.capacity
    requires 2 * |v| <= cfg.capacity + cfg.capacity / 2 < 2 * (|v| + |u|)
    requires s == Run(cfg, AlwaysReading(k), Empty(gate, []), [SetOp(k, v, 0)])
    ensures Set(cfg, AlwaysReading(k), s, j, u, 0).1 == Done && j !in Set(cfg, AlwaysReading(k), s, j, u, 0).0.items
  {
    var w := AlwaysReading(k);
    RunOne(cfg, w, Empty(gate, []), SetOp(k, v, 0));
    SetAlone(cfg, w, gate, k, v, s);
    Reachable(cfg, w, gate, [], [SetOp(k, v, 0)]);
    OnlyReads(w, s.t + 2, k);
    LruDropsOvertakenWrite(cfg, w, s, j, u, 0);
  }

  /** LRU, capacity 8, while a is being read: set a to four bytes, set b to three: the Set succeeds,
      and b is gone. */
  lemma LruLosesFreshWrite(cfg: Config, ops: seq<Op>)
    requires cfg == Node(8, Lru) && ops == [SetOp("a", "1234", 0), SetOp("b", "123", 0)]
    ensures var w := AlwaysReading("a");
            && Set(cfg, w, Run(cfg, w, Empty(OffService(), []), ops[..1]), "b", "123", 0).1 == Done
            && "b" !in Run(cfg, w, Empty(OffService(), []), ops).items
  {
    var w := AlwaysReading("a");
    assert ops[..1] == [ops[0]] && ops == [ops[0]] + [ops[1]];
    LruLoses(cfg, OffService(), "a", "1234", "b", "123", Run(cfg, w, Empty(OffService(), []), [ops[0]]));
    RunSnoc(cfg, w, Empty(OffService(), []), [ops[0]], ops[1]);
  }

  // ----- an overwrite that evicts itself

  lemma TwoJoined<T>(x: T, y: T)
    ensures [x] + [y] == [x, y]
  {
  }

  lemma ThreeJoined<T>(x: T, y: T, z: T)
    ensures [x, y] + [z] == [x, y, z]
  {
  }

  lemma SecondOnly(a: Key, it: Item, b: Key, it': Item)
    requires a != b
    ensures map[a := it, b := it'] - {a} == map[b := it']
  {
  }

  /** Two keys set, the second after the first. */
  lemma TwoSets(cfg: Config, gate: Gate, a: Key, x: Bytes, b: Key, y: Bytes, s: St)
    requires Writes(cfg) && !cfg.ml && a != b && |x| + |y| <= cfg.capacity
    requires 2 * (|x| + |y|) <= cfg.capacity + cfg.capacity / 2
    requires s == Run(cfg, Silence(), Empty(gate, []), [SetOp(a, x, 0), SetOp(b, y, 0)])
    ensures Holds(s, map[a := Item(x, |x|, 1), b := Item(y, |y|, 1)], |x| + |y|,
                  [Stored(a), Stored(b)], [SetEntry(a, x, 0), SetEntry(b, y, 0)])
    ensures Inv(cfg, s) && InStep(s)
  {
    var w, s0 := Silence(), Empty(gate, []);
    RunThree(cfg, w, s0, SetOp(a, x, 0), SetOp(b, y, 0), GetOp(a));
    var s1 := Set(cfg, w, s0, a, x, 0).0;
    SilentSet(cfg, s0, a, x);
    assert Holds(s1, map[a := Item(x, |x|, 1)], |x|, [Stored(a)], [SetEntry(a, x, 0)]);
    SilentSet(cfg, s1, b, y);
    TwoJoined(Stored(a), Stored(b));
    TwoJoined(SetEntry(a, x, 0), SetEntry(b, y, 0));
    Reachable(cfg, w, gate, [], [SetOp(a, x, 0), SetOp(b, y, 0)]);
  }

  lemma TwoRanks(a: Key, b: Key)
    requires a != b
    ensures Ranks([Stored(a), Stored(b)]) == map[a := Rank(1, 0), b := Rank(1, 1)]
    ensures Ranks([Stored(a), Stored(b), Dropped(a), Stored(a)]) == map[b := Rank(1, 1), a := Rank(1, 3)]
  {
    var h1, h2 := [Stored(a)], [Stored(a), Stored(b)];
    var h3 := [Stored(a), Stored(b), Dropped(a)];
    RanksSnoc([], Stored(a));
    RanksSnoc(h1, Stored(b));
    RanksSnoc(h2, Dropped(a));
    RanksSnoc(h3, Stored(a));
    assert [] + [Stored(a)] == h1 && h1 + [Stored(b)] == h2 && h2 + [Dropped(a)] == h3;
    assert h3 + [Stored(a)] == [Stored(a), Stored(b), Dropped(a), Stored(a)];
  }

  /** Making room for the overwrite of a takes a away. */
  lemma RoomTakesOld(cfg: Config, s: St, a: Key, x: Bytes, b: Key, y: Bytes, z: Bytes, e: Evicted)
    requires Writes(cfg) && !cfg.ml && cfg.kind == Lru && a != b && Inv(cfg, s) && InStep(s)
    requires Holds(s, map[a := Item(x, |x|, 1), b := Item(y, |y|, 1)], |x| + |y|, [Stored(a), Stored(b)], s.log)
    requires |y| + |z| > cfg.capacity >= |y| - |x| + |z|
    requires e == MakeRoom(cfg, Silence(), s, a, z)
    ensures Holds(e.s, map[b := Item(y, |y|, 1)], |y| - |x|, [Stored(a), Stored(b), Dropped(a)],
                  s.log + [DeleteEntry(a)])
    ensures InStep(e.s) && Drift(e.s) == Drift(s) + |x|
  {
    var w, t := Silence(), Subtract(s, a);
    var r := Yield(w, t);
    SilentYield(t);
    YieldInStep(w, t);
    YieldSettles(w, t);
    SubtractDrift(s, a);
    TwoRanks(a, b);
    assert IsVictim(Lru, Ranks(r.hist), a);
    SilentEviction(cfg, r, |z|, a);
    RoomInStep(cfg, w, s, a, z);
    RoomKeeps(cfg, w, s, a, z);
    ThreeJoined(Stored(a), Stored(b), Dropped(a));
    SecondOnly(a, Item(x, |x|, 1), b, Item(y, |y|, 1));
  }

  /** A commit whose pass evicts one key. */
  lemma SilentCommitEvicts(cfg: Config, s: St, k: Key, v: Bytes, j: Key, i: St)
    requires Writes(cfg) && !cfg.ml && i == Insert(s, k, v) && InStep(i) && Drift(i) >= 0
    requires IsVictim(cfg.kind, Ranks(i.hist), j) && j in i.items
    requires 2 * i.used > cfg.capacity + cfg.capacity / 2
    requires 2 * i.used - i.items[j].size <= cfg.capacity + cfg.capacity / 2
    ensures Holds(Commit(cfg, Silence(), s, k, v).0, i.items - {j}, i.used - i.items[j].size,
                  i.hist + [Dropped(j)], i.log + [DeleteEntry(j)])
    ensures Commit(cfg, Silence(), s, k, v).1 == Done
  {
    var w := Silence();
    var y := Yield(w, i);
    var p := Yield(w, Yield(w, y));
    SilentYield(i);
    SilentYield(y);
    SilentYield(Yield(w, y));
    YieldInStep(w, i);
    YieldInStep(w, y);
    YieldInStep(w, Yield(w, y));
    PassRuns(cfg.capacity, i.used);
    SilentEviction(cfg, p, i.used - cfg.capacity / 2, j);
  }

  /** The fold of a log that ends by deleting all it sets. */
  lemma FoldsAway(cap: nat, a: Key, x: Bytes, b: Key, y: Bytes, z: Bytes, log: seq<Entry>)
    requires log == [SetEntry(a, x, 0), SetEntry(b, y, 0)]
    ensures Fold(cap, log + [SetEntry(a, z, 0)] + [DeleteEntry(a)] + [DeleteEntry(b)]) == map[]
  {
    FoldSnoc(cap, [], SetEntry(a, x, 0));
    FoldSnoc(cap, [SetEntry(a, x, 0)], SetEntry(b, y, 0));
    assert [] + [SetEntry(a, x, 0)] == [SetEntry(a, x, 0)];
    assert [SetEntry(a, x, 0)] + [SetEntry(b, y, 0)] == log;
    FoldSnoc(cap, log, SetEntry(a, z, 0));
    FoldSnoc(cap, log + [SetEntry(a, z, 0)], DeleteEntry(a));
    FoldSnoc(cap, log + [SetEntry(a, z, 0)] + [DeleteEntry(a)], DeleteEntry(b));
    assert Fold(cap, log + [SetEntry(a, z, 0)]).Keys <= {a, b};
  }

  /** What the overwrite leaves when it inserts. */
  lemma OverwriteInserts(cfg: Config, a: Key, x: Bytes, b: Key, y: Bytes, z: Bytes, s: St, e: Evicted, i: St)
    requires Writes(cfg) && !cfg.ml && cfg.kind == Lru && a != b && Inv(cfg, s) && InStep(s)
    requires Holds(s, map[a := Item(x, |x|, 1), b := Item(y, |y|, 1)], |x| + |y|, [Stored(a), Stored(b)], s.log)
    requires |y| + |z| > cfg.capacity >= |y| - |x| + |z|
    requires e == MakeRoom(cfg, Silence(), s, a, z) && i == Insert(e.s, a, z)
    ensures Freed(cfg, e, |z|) && a !in e.s.items
    ensures i.items == map[b := Item(y, |y|, 1)][a := Item(z, |z|, 1)] && i.used == |y| - |x| + |z|
    ensures i.log == s.log + [DeleteEntry(a)]
    ensures InStep(i) && Drift(i) >= 0 && IsVictim(Lru, Ranks(i.hist), b)
  {
    RoomTakesOld(cfg, s, a, x, b, y, z, e);
    InsertInStep(e.s, a, z);
    InsertDrift(e.s, a, z);
    TwoRanks(a, b);
    assert i.hist == [Stored(a), Stored(b), Dropped(a), Stored(a)];
  }

  /** LRU: a and b set, then a overwritten with a value that fits only without the old one and b. */
  lemma OverwriteDrifts(cfg: Config, a: Key, x: Bytes, b: Key, y: Bytes, z: Bytes, s: St, s': St)
    requires Writes(cfg) && !cfg.ml && cfg.kind == Lru && a != b && Inv(cfg, s) && InStep(s) && |z| <= cfg.capacity
    requires Holds(s, map[a := Item(x, |x|, 1), b := Item(y, |y|, 1)], |x| + |y|,
                   [Stored(a), Stored(b)], [SetEntry(a, x, 0), SetEntry(b, y, 0)])
    requires |y| + |z| > cfg.capacity >= |y| - |x| + |z|
    requires 2 * (|y| - |x| + |z|) - |y| <= cfg.capacity + cfg.capacity / 2 < 2 * (|y| - |x| + |z|)
    requires s' == Set(cfg, Silence(), s, a, z, 0).0
    ensures s'.items == map[a := Item(z, |z|, 1)] && s'.used == |z| - |x| && Fold(cfg.capacity, s'.log) == map[]
    ensures EvictsItself(cfg, Silence(), s, a, z, 0) && Set(cfg, Silence(), s, a, z, 0).1 == Done
  {
    var w := Silence();
    var c := Append(cfg, w, s, SetEntry(a, z, 0)).0;
    SilentAppend(cfg, s, SetEntry(a, z, 0));
    AppendInStep(cfg, w, s, SetEntry(a, z, 0));
    AppendSettles(cfg, w, s, SetEntry(a, z, 0));
    InvSettles(cfg, s, c);
    var e := MakeRoom(cfg, w, c, a, z);
    var i := Insert(e.s, a, z);
    OverwriteInserts(cfg, a, x, b, y, z, c, e, i);
    SilentCommitEvicts(cfg, e.s, a, z, b, i);
    assert i.items - {b} == map[a := Item(z, |z|, 1)];
    FoldsAway(cfg.capacity, a, x, b, y, z, s.log);
  }

  lemma SingleTotal(k: Key, it: Item)
    ensures Total(map[k := it]) == it.size
  {
    TotalWithout(map[k := it], k);
    assert map[k := it] - {k} == map[];
  }

  /** LRU, capacity 10: set a to three bytes, b to four, a to seven. Then seven bytes are live and four
      counted, and the log folds to nothing while a is live. */
  lemma CounterAndLogDisagree(cfg: Config, ops: seq<Op>)
    requires cfg == Node(10, Lru)
    requires ops == [SetOp("a", "123", 0), SetOp("b", "1234", 0), SetOp("a", "1234567", 0)]
    ensures var s := Run(cfg, Silence(), Empty(OffService(), []), ops);
            && s.items == map["a" := Item("1234567", 7, 1)] && s.used == 4 && Total(s.items) == 7
            && Fold(10, s.log) == map[]
  {
    var s := Run(cfg, Silence(), Empty(OffService(), []), [ops[0], ops[1]]);
    RunThree(cfg, Silence(), Empty(OffService(), []), ops[0], ops[1], ops[2]);
    TwoSets(cfg, OffService(), "a", "123", "b", "1234", s);
    OverwriteDrifts(cfg, "a", "123", "b", "1234", "1234567", s, Set(cfg, Silence(), s, "a", "1234567", 0).0);
    SingleTotal("a", Item("1234567", 7, 1));
    assert ops == [ops[0], ops[1], ops[2]];
  }

  // ----- a pass that stops above its target

  /** The second of two keys comes to more than three quarters, and the first is evicted for it. */
  lemma SecondEvictsFirst(cfg: Config, e: St, a: Key, x: Bytes, b: Key, y: Bytes)
    requires Writes(cfg) && !cfg.ml && cfg.kind == Lru && a != b && InStep(e) && Drift(e) >= 0
    requires e.items == map[a := Item(x, |x|, 1)] && e.used == |x| && e.hist == [Stored(a)]
    requires 2 * (|x| + |y|) > cfg.capacity + cfg.capacity / 2 >= |x| + 2 * |y|
    ensures var (s', outcome) := Commit(cfg, Silence(), e, b, y);
            outcome == Done && s'.items == map[b := Item(y, |y|, 1)] && s'.used == |y|
  {
    var i := Insert(e, b, y);
    InsertInStep(e, b, y);
    InsertDrift(e, b, y);
    TwoJoined(Stored(a), Stored(b));
    TwoRanks(a, b);
    SilentCommitEvicts(cfg, e, b, y, a, i);
    assert i.items - {a} == map[b := Item(y, |y|, 1)];
  }

  /** LRU, capacity 8: set a to two bytes, b to five. The pass evicts a and stops at five bytes, above
      half the capacity. */
  lemma PassStopsAboveHalf(cfg: Config, s: St)
    requires cfg == Node(8, Lru)
    requires s == Run(cfg, Silence(), Empty(OffService(), []), [SetOp("a", "12", 0)])
    ensures var (s', outcome) := Set(cfg, Silence(), s, "b", "12345", 0);
            && outcome == Done && s'.items == map["b" := Item("12345", 5, 1)] && s'.used == 5 > cfg.capacity / 2
  {
    var w, s0 := Silence(), Empty(OffService(), []);
    RunOne(cfg, w, s0, SetOp("a", "12", 0));
    SilentSet(cfg, s0, "a", "12");
    Reachable(cfg, w, OffService(), [], [SetOp("a", "12", 0)]);
    SilentAppend(cfg, s, SetEntry("b", "12345", 0));
    var a := Append(cfg, w, s, SetEntry("b", "12345", 0)).0;
    AppendInStep(cfg, w, s, SetEntry("b", "12345", 0));
    AppendSettles(cfg, w, s, SetEntry("b", "12345", 0));
    SilentYield(a);
    YieldInStep(w, a);
    YieldSettles(w, a);
    SecondEvictsFirst(cfg, Yield(w, a), "a", "12", "b", "12345");
  }

  // ----- an overwrite rejected for space

  function Nth(n: nat): Key {
    seq(n + 1, _ => 'k')
  }

  /** The first n keys, each set to one byte. */
  function ManySets(n: nat): seq<Op>
    decreases n
  {
    if n == 0 then [] else ManySets(n - 1) + [SetOp(Nth(n - 1), "1", 0)]
  }

  /** n items of one byte. */
  ghost predicate Ones(s: St, n: nat) {
    && s.items.Keys == (set i | 0 <= i < n :: Nth(i)) && s.used == n == |s.items.Keys|
    && forall k :: k in s.items ==> s.items[k] == Item("1", 1, 1)
  }

  /** k was touched last. */
  ghost predicate TouchedLast(h: seq<Event>, k: Key) {
    k in Ranks(h) && forall j :: j in Ranks(h) && j != k ==> Before(Lru, Ranks(h)[j], Ranks(h)[k])
  }

  lemma StoredLast(h: seq<Event>, k: Key)
    ensures TouchedLast(h + [Stored(k)], k)
  {
    RanksDistinct(h);
    RanksSnoc(h, Stored(k));
  }

  lemma NewNth(n: nat)
    ensures Nth(n) !in (set i | 0 <= i < n :: Nth(i))
    ensures (set i | 0 <= i < n + 1 :: Nth(i)) == (set i | 0 <= i < n :: Nth(i)) + {Nth(n)}
  {
    forall i | 0 <= i < n ensures Nth(i) != Nth(n) {
      assert |Nth(i)| != |Nth(n)|;
    }
  }

  lemma OneAdded(s: St, s': St, n: nat)
    requires Ones(s, n) && s'.items == s.items[Nth(n) := Item("1", 1, 1)] && s'.used == n + 1
    ensures Ones(s', n + 1)
  {
    NewNth(n);
    assert s'.items.Keys == s.items.Keys + {Nth(n)};
  }

  lemma OneMore(cfg: Config, s: St, n: nat, s': St)
    requires Writes(cfg) && !cfg.ml && Ones(s, n)
    requires n + 1 <= cfg.capacity && 2 * (n + 1) <= cfg.capacity + cfg.capacity / 2
    requires s' == Set(cfg, Silence(), s, Nth(n), "1", 0).0
    ensures Ones(s', n + 1) && TouchedLast(s'.hist, Nth(n))
  {
    NewNth(n);
    SilentSet(cfg, s, Nth(n), "1");
    StoredLast(s.hist, Nth(n));
    OneAdded(s, s', n);
  }

  lemma ManyIsOneMore(cfg: Config, gate: Gate, n: nat, before: St, s: St)
    requires n > 0 && before == Run(cfg, Silence(), Empty(gate, []), ManySets(n - 1))
    requires s == Run(cfg, Silence(), Empty(gate, []), ManySets(n))
    ensures s == Set(cfg, Silence(), before, Nth(n - 1), "1", 0).0
  {
    RunSnoc(cfg, Silence(), Empty(gate, []), ManySets(n - 1), SetOp(Nth(n - 1), "1", 0));
  }

  lemma NoOnes(gate: Gate)
    ensures Ones(Empty(gate, []), 0)
  {
  }

  lemma {:induction false} ManySetsOnes(cfg: Config, gate: Gate, n: nat, s: St)
    requires Writes(cfg) && !cfg.ml && n <= cfg.capacity && 2 * n <= cfg.capacity + cfg.capacity / 2
    requires s == Run(cfg, Silence(), Empty(gate, []), ManySets(n))
    ensures Ones(s, n) && (n > 0 ==> TouchedLast(s.hist, Nth(n - 1)))
    decreases n
  {
    if n == 0 {
      NoOnes(gate);
    } else {
      var before := Run(cfg, Silence(), Empty(gate, []), ManySets(n - 1));
      ManySetsOnes(cfg, gate, n - 1, before);
      ManyIsOneMore(cfg, gate, n, before, s);
      OneMore(cfg, before, n - 1, s);
    }
  }

  lemma {:induction false} OnesTotal(items: Items)
    requires forall k :: k in items ==> items[k].size == 1
    ensures Total(items) == |items.Keys|
    decreases |items|
  {
    if items != map[] {
      var k :| k in items;
      TotalWithout(items, k);
      Smaller(items, k);
      OnesTotal(items - {k});
      assert (items - {k}).Keys == items.Keys - {k};
    }
  }

  lemma Subset(a: set<Key>, b: set<Key>)
    requires a <= b
    ensures |a| <= |b|
  {
    assert b == a + (b - a);
  }

  lemma OnesTogether(items: Items, group: set<Key>)
    requires forall k :: k in items ==> items[k].size == 1
    ensures Together(items, group) <= |group|
  {
    OnesTotal(Restricted(items, group));
    Subset(Restricted(items, group).Keys, group);
  }

  lemma LastIsSpared(s: St, n: nat)
    requires n > 0 && Ones(s, n) && TouchedLast(s.hist, Nth(n - 1)) && InStep(s)
    ensures Nth(n - 1) in Ranks(s.hist) && |Ahead(Lru, Ranks(s.hist), Nth(n - 1))| == n - 1
  {
    assert Ahead(Lru, Ranks(s.hist), Nth(n - 1)) == s.items.Keys - {Nth(n - 1)};
  }

  /** Ten evictions free at most ten bytes, so the value is bound to be rejected; and the item to be
      replaced, touched last, is not among them. */
  lemma OnesReject(cfg: Config, s: St, n: nat, v: Bytes)
    requires cfg.kind == Lru && 10 < n && Ones(s, n) && TouchedLast(s.hist, Nth(n - 1)) && InStep(s)
    requires |v| <= cfg.capacity < n - 11 + |v|
    ensures Rejectable(cfg, s, Nth(n - 1), v) && !SelfEvicting(cfg, s, Nth(n - 1), v)
  {
    RanksDistinct(s.hist);
    FirstAtMost(Lru, Ranks(s.hist), MAX_EVICTIONS);
    OnesTogether(s.items, First(Lru, Ranks(s.hist), MAX_EVICTIONS));
    LastIsSpared(s, n);
  }

  /** A rejected overwrite that does not evict its old item leaves it as it was. */
  lemma RejectedKeeps(cfg: Config, w: World, s: St, k: Key, v: Bytes)
    requires Rejected(cfg, w, s, k, v, 0) && k in s.items && !EvictsItself(cfg, w, s, k, v, 0)
    ensures var s' := Set(cfg, w, s, k, v, 0).0;
            k in s'.items && s'.items[k].value == s.items[k].value
  {
    var a := Append(cfg, w, s, SetEntry(k, v, 0)).0;
    AppendSettles(cfg, w, s, SetEntry(k, v, 0));
    MakeRoomSettles(cfg, w, a, k, v);
  }

  lemma RejectedOutcome(cfg: Config, s: St, n: nat, v: Bytes)
    requires Writes(cfg) && !cfg.ml && cfg.kind == Lru && 10 < n && Ones(s, n) && TouchedLast(s.hist, Nth(n - 1))
    requires Inv(cfg, s) && InStep(s) && |v| <= cfg.capacity < n - 11 + |v|
    ensures var (s', outcome) := Set(cfg, Silence(), s, Nth(n - 1), v, 0);
            && outcome == NoSpace && |s'.items.Keys| == n - 10 && Drift(s') == Drift(s) + 1
            && Nth(n - 1) in s'.items && s'.items[Nth(n - 1)].value == "1"
  {
    var w, k := Silence(), Nth(n - 1);
    OnesReject(cfg, s, n, v);
    LossToldBefore(cfg, w, s, k, v, 0);
    SetFailsOnlyAfterTen(cfg, w, s, k, v, 0);
    SetKeeps(cfg, w, s, k, v, 0);
    NewNth(n - 1);
    RejectedKeeps(cfg, w, s, k, v);
  }

  /** LRU, capacity 100: set twenty keys to one byte each, then the last of them to 95. The Set is
      rejected after ten evictions. The old item is still there, but the counter has lost its byte, and
      the log says that the key was set. */
  lemma RejectedOverwrite(cfg: Config, s: St, k: Key, v: Bytes, s': St)
    requires cfg == Node(100, Lru) && |v| == 95 && k == Nth(19)
    requires s == Run(cfg, Silence(), Empty(OffService(), []), ManySets(20))
    requires s' == Set(cfg, Silence(), s, k, v, 0).0
    ensures Set(cfg, Silence(), s, k, v, 0).1 == NoSpace && |s'.items.Keys| == 10
    ensures k in s'.items && s'.items[k].value == "1" && Total(s'.items) == s'.used + 1
    ensures !AgreeAt(cfg.capacity, s', k)
  {
    ManySetsOnes(cfg, OffService(), 20, s);
    Reachable(cfg, Silence(), OffService(), [], ManySets(20));
    RejectedOutcome(cfg, s, 20, v);
    OnesTotal(s.items);
    NewNth(19);
    SetAgreesExactly(cfg, Silence(), s, k, v, 0);
  }

  // ----- a key the service names

  /** A world in which nothing happens by itself, and the service, whenever it may be asked, names k. */
  function Advice(k: Key): World {
    t => Choice([], Call(COOLDOWN, COOLDOWN, COOLDOWN, Reply(k)), true, true)
  }

  lemma AdvisedYield(j: Key, s: St)
    ensures Holds(Yield(Advice(j), s), s.items, s.used, s.hist, s.log) && Yield(Advice(j), s).gate == s.gate
  {
    assert LookAll(Publish(s), []) == Publish(s);
  }

  lemma AdvisedCommit(cfg: Config, j: Key, s: St, k: Key, v: Bytes)
    requires cfg.ml
    ensures var (s', outcome) := Commit(cfg, Advice(j), s, k, v);
            && Holds(s', s.items[k := Item(v, |v|, 1)], s.used + |v|, s.hist + [Stored(k)], s.log)
            && outcome == Done && s'.gate == s.gate
  {
    var i := Insert(s, k, v);
    AdvisedYield(j, i);
    AdvisedYield(j, Yield(Advice(j), i));
  }

  /** A Set on an ML node that fits: the service is not asked. */
  lemma AdvisedSet(cfg: Config, j: Key, s: St, k: Key, v: Bytes)
    requires Writes(cfg) && cfg.ml && k !in s.items && s.used + |v| <= cfg.capacity && s.used >= 0
    ensures var (s', outcome) := Set(cfg, Advice(j), s, k, v, 0);
            && Holds(s', s.items[k := Item(v, |v|, 1)], s.used + |v|, s.hist + [Stored(k)], s.log + [SetEntry(k, v, 0)])
            && outcome == Done && s'.gate == s.gate
  {
    var a := Append(cfg, Advice(j), s, SetEntry(k, v, 0)).0;
    AdvisedYield(j, s.(log := s.log + [SetEntry(k, v, 0)]));
    AdvisedYield(j, Subtract(a, k));
    AdvisedCommit(cfg, j, MakeRoom(cfg, Advice(j), a, k, v).s, k, v);
  }

  /** A loop that deleting the key named satisfies. */
  lemma AdvisedEviction(cfg: Config, j: Key, s: St, need: int)
    requires Writes(cfg) && MayAsk(cfg) && s.gate == FRESH && j != "" && j in s.items
    requires !Roomy(cfg, s, need) && s.used - s.items[j].size + need <= cfg.capacity
    ensures Holds(Evict(cfg, Advice(j), s, need, 0, {}).s, s.items - {j}, s.used - s.items[j].size,
                  s.hist + [Dropped(j)], s.log + [DeleteEntry(j)])
  {
    var w := Advice(j);
    var (c, victim) := Choose(cfg, w, Yield(w, s));
    ChooseMeans(cfg, w, s);
    assert SuggestedAt(cfg, w, s, j);
    AdvisedYield(j, s);
    AdvisedYield(j, Yield(w, s).(gate := c.gate));
    var d := DeleteLocked(cfg, w, c, j).0;
    AdvisedYield(j, c.(log := c.log + [DeleteEntry(j)]));
    AdvisedYield(j, Remove(Append(cfg, w, c, DeleteEntry(j)).0, j));
    assert Evict(cfg, w, s, need, 0, {}) == Turn(cfg, w, s, need, 0, {}) == Attempt(cfg, w, c, need, 0, {}, j);
    Stops(cfg, w, d, need, 1, {} + {j});
  }

  lemma AdvisedReplacement(cfg: Config, j: Key, s: St, k: Key, v: Bytes)
    requires Writes(cfg) && MayAsk(cfg) && s.gate == FRESH && j != "" && j in s.items && k !in s.items
    requires |v| <= cfg.capacity < s.used + |v| && s.used - s.items[j].size + |v| <= cfg.capacity
    ensures var (s', outcome) := Set(cfg, Advice(j), s, k, v, 0);
            outcome == Done && s'.items == (s.items - {j})[k := Item(v, |v|, 1)]
  {
    var a := Append(cfg, Advice(j), s, SetEntry(k, v, 0)).0;
    AdvisedYield(j, s.(log := s.log + [SetEntry(k, v, 0)]));
    AdvisedYield(j, Subtract(a, k));
    AdvisedEviction(cfg, j, Yield(Advice(j), Subtract(a, k)), |v|);
    AdvisedCommit(cfg, j, MakeRoom(cfg, Advice(j), a, k, v).s, k, v);
  }

  lemma TwoAdvisedSets(cfg: Config, j: Key, a: Key, x: Bytes, b: Key, y: Bytes, s: St)
    requires Writes(cfg) && cfg.ml && a != b && |x| + |y| <= cfg.capacity
    requires s == Run(cfg, Advice(j), Empty(FRESH, []), [SetOp(a, x, 0), SetOp(b, y, 0)])
    ensures s.items == map[a := Item(x, |x|, 1), b := Item(y, |y|, 1)] && s.used == |x| + |y|
    ensures s.hist == [Stored(a), Stored(b)] && s.gate == FRESH
  {
    var e := Empty(FRESH, []);
    RunOne(cfg, Advice(j), e, SetOp(a, x, 0));
    RunSnoc(cfg, Advice(j), e, [SetOp(a, x, 0)], SetOp(b, y, 0));
    TwoJoined(SetOp(a, x, 0), SetOp(b, y, 0));
    AdvisedSet(cfg, j, e, a, x);
    AdvisedSet(cfg, j, Run(cfg, Advice(j), e, [SetOp(a, x, 0)]), b, y);
  }

  /** ML over LRU, capacity 10: set a and b to five bytes each, then c to five. LRU would evict a, the
      service names b, and b goes. */
  lemma ServiceOverridesPolicy(cfg: Config, w: World, s: St)
    requires cfg == Config(10, Lru, true, true, true, false) && w == Advice("b")
    requires s == Run(cfg, w, Empty(FRESH, []), [SetOp("a", "11111", 0), SetOp("b", "22222", 0)])
    ensures Victim(Lru, s.hist) == Some("a")
    ensures var (s', outcome) := Set(cfg, w, s, "c", "33333", 0);
            outcome == Done && s'.items == map["a" := Item("11111", 5, 1), "c" := Item("33333", 5, 1)]
  {
    TwoAdvisedSets(cfg, "b", "a", "11111", "b", "22222", s);
    TwoRanks("a", "b");
    assert IsVictim(Lru, Ranks(s.hist), "a");
    VictimUnique(Lru, Ranks(s.hist), "a", Victim(Lru, s.hist).value);
    AdvisedReplacement(cfg, "b", s, "c", "33333");
  }
}
