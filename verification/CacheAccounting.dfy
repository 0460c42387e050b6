/**
  What every section of every operation keeps: the byte counter against the live items, the bound
  by the capacity, and the policy's keys against the live keys.
 */
module CacheAccounting {
  import opened PolicyHistory
  import opened Breaker
  import opened WalCodec
  import opened CacheSpec

  // ----- bytes held by a map of items

  lemma Smaller(items: Items, k: Key)
    requires k in items
    ensures |items - {k}| < |items|
  {
    assert items == (items - {k})[k := items[k]];
  }

  ghost function Total(items: Items): nat
    decreases |items|
  {
    if items == map[] then 0
    else
      var k :| k in items;
      Smaller(items, k);
      items[k].size + Total(items - {k})
  }

  lemma {:induction false} TotalWithout(items: Items, k: Key)
    requires k in items
    ensures Total(items) == items[k].size + Total(items - {k})
    decreases |items|
  {
    var j :| j in items && Total(items) == items[j].size + Total(items - {j});
    if j != k {
      Smaller(items, j);
      Smaller(items, k);
      TotalWithout(items - {j}, k);
      TotalWithout(items - {k}, j);
      assert items - {j} - {k} == items - {k} - {j};
    }
  }

  lemma TotalWith(items: Items, k: Key, it: Item)
    ensures Total(items[k := it]) == it.size + Total(items - {k})
  {
    TotalWithout(items[k := it], k);
    assert items[k := it] - {k} == items - {k};
  }

  lemma {:induction false} TotalBySize(a: Items, b: Items)
    requires a.Keys == b.Keys && forall k :: k in a ==> a[k].size == b[k].size
    ensures Total(a) == Total(b)
    decreases |a|
  {
    if a != map[] {
      var k :| k in a;
      TotalWithout(a, k);
      TotalWithout(b, k);
      Smaller(a, k);
      TotalBySize(a - {k}, b - {k});
    }
  }

  /** How far the byte counter lags behind the live items. */
  ghost function Drift(s: St): int {
    Total(s.items) - s.used
  }

  // ----- what gets and evictions may do to a node

  /** Items may go, but none changes its value and the counter follows them. */
  ghost predicate Shrunk(a: St, b: St) {
    && b.items.Keys <= a.items.Keys
    && (forall k :: k in b.items ==> b.items[k].value == a.items[k].value && b.items[k].size == a.items[k].size)
    && Drift(b) == Drift(a)
    && b.used <= a.used
  }

  ghost predicate Covered(items: Items, h: seq<Event>) {
    Tracked(h) <= items.Keys
  }

  ghost predicate ViewOk(v: View, limit: int) {
    v.used <= limit && Covered(v.items, v.hist)
  }

  ghost predicate SeenOk(s: St, limit: int) {
    forall i :: 0 <= i < |s.seen| ==> ViewOk(s.seen[i], limit)
  }

  /** b comes from a by gets and evictions: the log was at most appended to, and nothing readers
      saw on the way was worse than a. */
  ghost predicate Settles(a: St, b: St) {
    && Shrunk(a, b)
    && a.log <= b.log
    && (Covered(a.items, a.hist) ==> Covered(b.items, b.hist))
    && (forall limit :: a.used <= limit && Covered(a.items, a.hist) && SeenOk(a, limit) ==> SeenOk(b, limit))
  }

  /** Whoever evicts one key frees its bytes. */
  lemma OneLess(a: St, b: St, k: Key)
    requires Settles(a, b) && k in a.items && b.items.Keys == a.items.Keys - {k}
    ensures b.used == a.used - a.items[k].size
  {
    TotalWithout(a.items, k);
    TotalBySize(a.items - {k}, b.items);
  }

  lemma SettlesTrans(a: St, b: St, c: St)
    requires Settles(a, b) && Settles(b, c)
    ensures Settles(a, c)
  {
  }

  lemma PublishSettles(s: St)
    ensures Settles(s, Publish(s))
  {
    forall limit | s.used <= limit && Covered(s.items, s.hist) && SeenOk(s, limit)
      ensures SeenOk(Publish(s), limit)
    {
      assert forall i :: 0 <= i < |s.seen| ==> Publish(s).seen[i] == s.seen[i];
    }
  }

  lemma TouchSettles(s: St, k: Key)
    ensures Settles(s, Touch(s, k)) && Touch(s, k).items.Keys == s.items.Keys && Touch(s, k).used == s.used
  {
    if k in s.items {
      var it := s.items[k].(frequency := s.items[k].frequency + 1);
      TotalWith(s.items, k, it);
      TotalWithout(s.items, k);
      RanksSnoc(s.hist, Got(k));
    }
    assert Touch(s, k).seen == s.seen;
  }

  lemma LookSettles(s: St, k: Key)
    ensures Settles(s, Look(s, k)) && Look(s, k).items.Keys == s.items.Keys && Look(s, k).used == s.used
  {
    TouchSettles(s, k);
    PublishSettles(Touch(s, k));
    SettlesTrans(s, Touch(s, k), Look(s, k));
  }

  lemma {:induction false} LookAllSettles(s: St, ks: seq<Key>)
    ensures Settles(s, LookAll(s, ks))
    ensures LookAll(s, ks).items.Keys == s.items.Keys && LookAll(s, ks).used == s.used
    decreases |ks|
  {
    if ks != [] {
      assert LookAll(s, ks) == LookOn(s, ks);
      LookSettles(s, ks[0]);
      LookAllSettles(Look(s, ks[0]), ks[1..]);
      SettlesTrans(s, Look(s, ks[0]), LookAll(s, ks));
    }
  }

  lemma YieldSettles(w: World, s: St)
    ensures Settles(s, Yield(w, s))
    ensures Yield(w, s).items.Keys == s.items.Keys && Yield(w, s).used == s.used
  {
    PublishSettles(s);
    LookAllSettles(Publish(s), w(s.t).gets);
    SettlesTrans(s, Publish(s), LookAll(Publish(s), w(s.t).gets));
  }

  lemma RemoveSettles(s: St, k: Key)
    requires k in s.items
    ensures Settles(s, Remove(s, k))
  {
    TotalWithout(s.items, k);
    RanksSnoc(s.hist, Dropped(k));
    assert Remove(s, k).seen == s.seen;
  }

  lemma ForgetSettles(s: St, k: Key)
    ensures Settles(s, Forget(s, k))
  {
    RanksSnoc(s.hist, Dropped(k));
    assert Forget(s, k).seen == s.seen;
  }

  lemma AppendSettles(cfg: Config, w: World, s: St, e: Entry)
    ensures var a := Append(cfg, w, s, e).0;
            Settles(s, a) && a.items.Keys == s.items.Keys && a.used == s.used
  {
    var s' := s.(log := s.log + [e]);
    assert Settles(s, s');
    YieldSettles(w, s);
    YieldSettles(w, s');
    SettlesTrans(s, s', Yield(w, s'));
  }

  lemma DeleteLockedSettles(cfg: Config, w: World, s: St, k: Key)
    ensures var (d, outcome) := DeleteLocked(cfg, w, s, k);
            Settles(s, d) && d.items.Keys == (if outcome == AppendFailed then s.items.Keys else s.items.Keys - {k})
  {
    var (a, ok) := Append(cfg, w, s, DeleteEntry(k));
    AppendSettles(cfg, w, s, DeleteEntry(k));
    if ok && k in a.items {
      RemoveSettles(a, k);
      YieldSettles(w, Remove(a, k));
      SettlesTrans(a, Remove(a, k), Yield(w, Remove(a, k)));
      SettlesTrans(s, a, Yield(w, Remove(a, k)));
    }
  }

  lemma AskSettles(w: World, s: St, g: Gate)
    ensures var y := Yield(w, s.(gate := g));
            Settles(s, y) && y.items.Keys == s.items.Keys && y.used == s.used
  {
    assert Settles(s, s.(gate := g));
    YieldSettles(w, s.(gate := g));
    SettlesTrans(s, s.(gate := g), Yield(w, s.(gate := g)));
  }

  lemma ChooseSettles(cfg: Config, w: World, s: St)
    ensures var c := Choose(cfg, w, s).0;
            Settles(s, c) && c.items.Keys == s.items.Keys && c.used == s.used
    ensures var c := ChooseWithMl(cfg, w, s).0;
            Settles(s, c) && c.items.Keys == s.items.Keys && c.used == s.used
  {
    YieldSettles(w, s);
    AskSettles(w, s, Predict(s.gate, Request(s.items != map[], w(s.t).call)).0);
  }

  lemma {:induction false} EvictSettles(cfg: Config, w: World, s: St, need: int, count: nat, attempted: set<Key>)
    ensures Settles(s, Evict(cfg, w, s, need, count, attempted).s)
    decreases s.items.Keys - attempted
  {
    var e := Evict(cfg, w, s, need, count, attempted);
    if count < MAX_EVICTIONS && !Roomy(cfg, s, need) && s.items != map[] {
      assert e == Turn(cfg, w, s, need, count, attempted);
      var y := Yield(w, s);
      var (c, victim) := Choose(cfg, w, y);
      YieldSettles(w, s);
      ChooseSettles(cfg, w, y);
      SettlesTrans(s, y, c);
      if victim.Some? {
        var k := victim.value;
        if k in attempted {
          ForgetSettles(c, k);
          SettlesTrans(s, c, e.s);
        } else if k in c.items {
          var (d, outcome) := DeleteLocked(cfg, w, c, k);
          DeleteLockedSettles(cfg, w, c, k);
          SettlesTrans(s, c, d);
          assert k in s.items.Keys - attempted;
          EvictSettles(cfg, w, d, need, if outcome == Done then count + 1 else count, attempted + {k});
          SettlesTrans(s, d, e.s);
        }
      }
    }
  }

  lemma ProactiveSettles(cfg: Config, w: World, s: St)
    ensures Settles(s, Proactive(cfg, w, s))
  {
    var y, need := Yield(w, s), s.used - cfg.capacity / 2;
    YieldSettles(w, s);
    EvictSettles(cfg, w, y, need, 0, {});
    SettlesTrans(s, y, Evict(cfg, w, y, need, 0, {}).s);
  }

  lemma TriggerSettles(cfg: Config, w: World, s: St)
    ensures Settles(s, Trigger(cfg, w, s))
  {
    var y := Yield(w, s);
    YieldSettles(w, s);
    ProactiveSettles(cfg, w, y);
    SettlesTrans(s, y, Proactive(cfg, w, y));
  }

  lemma MakeRoomSettles(cfg: Config, w: World, s: St, k: Key, v: Bytes)
    ensures Settles(Subtract(s, k), MakeRoom(cfg, w, s, k, v).s)
  {
    var b := Yield(w, Subtract(s, k));
    YieldSettles(w, Subtract(s, k));
    EvictSettles(cfg, w, b, |v|, 0, {});
    SettlesTrans(Subtract(s, k), b, Evict(cfg, w, b, |v|, 0, {}).s);
  }

  // ----- the invariant of a node

  ghost predicate Sized(items: Items) {
    forall k :: k in items ==> items[k].size == |items[k].value|
  }

  ghost predicate Inv(cfg: Config, s: St) {
    && s.used <= cfg.capacity
    && Drift(s) >= 0
    && Sized(s.items)
    && Covered(s.items, s.hist)
    && SeenOk(s, cfg.capacity)
  }

  lemma InvSettles(cfg: Config, a: St, b: St)
    requires Inv(cfg, a) && Settles(a, b)
    ensures Inv(cfg, b)
  {
  }

  // ----- where the counter loses track: an overwrite takes the old size off before it evicts

  /** The Set replaces a live key and reaches the point where it makes room. */
  ghost predicate Overwrites(cfg: Config, w: World, s: St, k: Key, v: Bytes, ttl: int) {
    k in s.items && Append(cfg, w, s, SetEntry(k, v, ttl)).1 && |v| <= cfg.capacity
  }

  /** What making room left, for a Set that gets that far. */
  ghost function Room(cfg: Config, w: World, s: St, k: Key, v: Bytes, ttl: int): Evicted {
    MakeRoom(cfg, w, Append(cfg, w, s, SetEntry(k, v, ttl)).0, k, v)
  }

  ghost predicate EvictsItself(cfg: Config, w: World, s: St, k: Key, v: Bytes, ttl: int) {
    Overwrites(cfg, w, s, k, v, ttl) && k !in Room(cfg, w, s, k, v, ttl).s.items
  }

  ghost predicate Rejected(cfg: Config, w: World, s: St, k: Key, v: Bytes, ttl: int) {
    Set(cfg, w, s, k, v, ttl).1 == NoSpace
  }

  /** The bytes an operation makes the counter lose. */
  ghost function Loss(cfg: Config, w: World, s: St, op: Op): nat {
    match op
    case SetOp(k, v, ttl) =>
      if k in s.items && (EvictsItself(cfg, w, s, k, v, ttl) || Rejected(cfg, w, s, k, v, ttl))
      then s.items[k].size else 0
    case _ => 0
  }

  /** The bytes used once the value is in, if nothing is evicted. */
  function UsedWith(s: St, k: Key, v: Bytes): int {
    s.used - (if k in s.items then s.items[k].size else 0) + |v|
  }

  lemma FittingRoom(cfg: Config, w: World, a: St, k: Key, v: Bytes)
    requires UsedWith(a, k, v) <= cfg.capacity
    ensures var e := MakeRoom(cfg, w, a, k, v);
            e.s.items.Keys == a.items.Keys && Freed(cfg, e, |v|)
  {
    YieldSettles(w, Subtract(a, k));
  }

  /** A Set that fits as things are loses nothing, whatever the faults, the victims and the Gets. */
  lemma FittingSetLosesNothing(cfg: Config, w: World, s: St, k: Key, v: Bytes, ttl: int)
    requires UsedWith(s, k, v) <= cfg.capacity
    ensures Loss(cfg, w, s, SetOp(k, v, ttl)) == 0
  {
    var (a, ok) := Append(cfg, w, s, SetEntry(k, v, ttl));
    AppendSettles(cfg, w, s, SetEntry(k, v, ttl));
    if k in s.items && ok && |v| <= cfg.capacity {
      FittingRoom(cfg, w, a, k, v);
      assert a.items[k].size == s.items[k].size;
    }
  }

  lemma SubtractDrift(s: St, k: Key)
    ensures Drift(Subtract(s, k)) == Drift(s) + if k in s.items then s.items[k].size else 0
    ensures Subtract(s, k).items == s.items && Subtract(s, k).hist == s.hist && Subtract(s, k).seen == s.seen
  {
  }

  lemma InsertDrift(s: St, k: Key, v: Bytes)
    ensures Drift(Insert(s, k, v)) == Drift(s) - if k in s.items then s.items[k].size else 0
    ensures Covered(s.items, s.hist) ==> Covered(Insert(s, k, v).items, Insert(s, k, v).hist)
  {
    TotalWith(s.items, k, Item(v, |v|, 1));
    if k in s.items {
      TotalWithout(s.items, k);
    } else {
      assert s.items - {k} == s.items;
    }
    RanksSnoc(s.hist, Stored(k));
  }

  lemma CommitKeeps(cfg: Config, w: World, s: St, k: Key, v: Bytes)
    requires Covered(s.items, s.hist) && SeenOk(s, cfg.capacity) && Sized(s.items) && Roomy(cfg, s, |v|)
    requires Drift(Insert(s, k, v)) >= 0
    ensures Inv(cfg, Commit(cfg, w, s, k, v).0)
    ensures Drift(Commit(cfg, w, s, k, v).0) == Drift(Insert(s, k, v))
  {
    var i := Insert(s, k, v);
    InsertDrift(s, k, v);
    assert Inv(cfg, i);
    YieldSettles(w, i);
    TriggerSettles(cfg, w, Yield(w, i));
    SettlesTrans(i, Yield(w, i), Trigger(cfg, w, Yield(w, i)));
    InvSettles(cfg, i, Commit(cfg, w, s, k, v).0);
  }

  lemma RoomKeeps(cfg: Config, w: World, s: St, k: Key, v: Bytes)
    requires Inv(cfg, s)
    ensures Inv(cfg, MakeRoom(cfg, w, s, k, v).s)
    ensures Drift(MakeRoom(cfg, w, s, k, v).s) == Drift(s) + if k in s.items then s.items[k].size else 0
    ensures Shrunk(Subtract(s, k), MakeRoom(cfg, w, s, k, v).s)
  {
    SubtractDrift(s, k);
    MakeRoomSettles(cfg, w, s, k, v);
    InvSettles(cfg, Subtract(s, k), MakeRoom(cfg, w, s, k, v).s);
  }

  lemma SetKeeps(cfg: Config, w: World, s: St, k: Key, v: Bytes, ttl: int)
    requires Inv(cfg, s)
    ensures Inv(cfg, Set(cfg, w, s, k, v, ttl).0)
    ensures Drift(Set(cfg, w, s, k, v, ttl).0) == Drift(s) + Loss(cfg, w, s, SetOp(k, v, ttl))
  {
    var (a, ok) := Append(cfg, w, s, SetEntry(k, v, ttl));
    AppendSettles(cfg, w, s, SetEntry(k, v, ttl));
    InvSettles(cfg, s, a);
    if ok && |v| <= cfg.capacity {
      var e := MakeRoom(cfg, w, a, k, v);
      RoomKeeps(cfg, w, a, k, v);
      if Freed(cfg, e, |v|) {
        InsertDrift(e.s, k, v);
        CommitKeeps(cfg, w, e.s, k, v);
      }
    }
  }

  lemma DeleteKeeps(cfg: Config, w: World, s: St, k: Key)
    requires Inv(cfg, s)
    ensures Inv(cfg, Delete(cfg, w, s, k).0) && Drift(Delete(cfg, w, s, k).0) == Drift(s)
  {
    DeleteLockedSettles(cfg, w, s, k);
    InvSettles(cfg, s, Delete(cfg, w, s, k).0);
  }

  lemma WorkerSettles(cfg: Config, w: World, s: St)
    ensures Settles(s, Worker(cfg, w, s))
  {
    if cfg.ml && s.gate.enabled && s.items != map[] {
      var (g, answer) := Predict(s.gate, Request(true, w(s.t).call));
      var y := Yield(w, s.(gate := g));
      AskSettles(w, s, g);
      var c := if answer.Some? then y else ChooseWithMl(cfg, w, y).0;
      ChooseSettles(cfg, w, y);
      SettlesTrans(s, y, c);
      var victim := if answer.Some? then answer else ChooseWithMl(cfg, w, y).1;
      if victim.Some? {
        DeleteLockedSettles(cfg, w, c, victim.value);
        SettlesTrans(s, c, Worker(cfg, w, s));
      }
    }
  }

  lemma DoKeeps(cfg: Config, w: World, s: St, op: Op)
    requires Inv(cfg, s)
    ensures Inv(cfg, Do(cfg, w, s, op))
    ensures Drift(Do(cfg, w, s, op)) == Drift(s) + Loss(cfg, w, s, op)
  {
    match op
    case SetOp(k, v, ttl) => SetKeeps(cfg, w, s, k, v, ttl);
    case GetOp(k) =>
      LookSettles(s, k);
      InvSettles(cfg, s, Look(s, k));
    case DeleteOp(k) => DeleteKeeps(cfg, w, s, k);
    case AskOp =>
      AskSettles(w, s, Predict(s.gate, Request(s.items != map[], w(s.t).call)).0);
      InvSettles(cfg, s, Ask(w, s));
    case WorkerOp =>
      WorkerSettles(cfg, w, s);
      InvSettles(cfg, s, Worker(cfg, w, s));
  }

  // ----- whole runs

  lemma EmptyInv(cfg: Config, gate: Gate, log: seq<Entry>)
    ensures Inv(cfg, Empty(gate, log)) && Drift(Empty(gate, log)) == 0
  {
  }

  ghost function Losses(cfg: Config, w: World, s: St, ops: seq<Op>): nat
    decreases |ops|
  {
    if ops == [] then 0
    else
      var init := ops[..|ops| - 1];
      Losses(cfg, w, s, init) + Loss(cfg, w, Run(cfg, w, s, init), ops[|ops| - 1])
  }

  /** In every run the counter lags behind the live bytes by exactly what the overwrites that
      evicted themselves or were rejected made it lose; nothing else moves the two apart. */
  lemma {:induction false} ExactAccounting(cfg: Config, w: World, s: St, ops: seq<Op>)
    requires Inv(cfg, s)
    ensures Inv(cfg, Run(cfg, w, s, ops))
    ensures Drift(Run(cfg, w, s, ops)) == Drift(s) + Losses(cfg, w, s, ops)
    decreases |ops|
  {
    if ops != [] {
      var init := ops[..|ops| - 1];
      ExactAccounting(cfg, w, s, init);
      DoKeeps(cfg, w, Run(cfg, w, s, init), ops[|ops| - 1]);
    }
  }

  /** The bytes the n-th operation of a run makes the counter lose. */
  ghost function LossAt(cfg: Config, w: World, s: St, ops: seq<Op>, n: nat): nat
    requires n < |ops|
  {
    Loss(cfg, w, Run(cfg, w, s, ops[..n]), ops[n])
  }

  lemma LossAtPrefix(cfg: Config, w: World, s: St, ops: seq<Op>, m: nat, n: nat)
    requires n < m <= |ops|
    ensures LossAt(cfg, w, s, ops[..m], n) == LossAt(cfg, w, s, ops, n)
  {
    assert ops[..m][..n] == ops[..n];
  }

  ghost predicate LossFree(cfg: Config, w: World, s: St, ops: seq<Op>) {
    forall n {:trigger LossAt(cfg, w, s, ops, n)} :: 0 <= n < |ops| ==> LossAt(cfg, w, s, ops, n) == 0
  }

  lemma LossFreeSnoc(cfg: Config, w: World, s: St, ops: seq<Op>)
    requires ops != []
    ensures LossFree(cfg, w, s, ops) <==>
            LossFree(cfg, w, s, ops[..|ops| - 1]) && LossAt(cfg, w, s, ops, |ops| - 1) == 0
  {
    var m := |ops| - 1;
    forall n | 0 <= n < m ensures LossAt(cfg, w, s, ops[..m], n) == LossAt(cfg, w, s, ops, n) {
      LossAtPrefix(cfg, w, s, ops, m, n);
    }
    if LossFree(cfg, w, s, ops[..m]) && LossAt(cfg, w, s, ops, m) == 0 {
      forall n | 0 <= n < |ops| ensures LossAt(cfg, w, s, ops, n) == 0 {
        assert n < m ==> LossAt(cfg, w, s, ops[..m], n) == 0;
      }
    }
  }

  lemma {:induction false} NoLosses(cfg: Config, w: World, s: St, ops: seq<Op>)
    ensures Losses(cfg, w, s, ops) == 0 <==> LossFree(cfg, w, s, ops)
    decreases |ops|
  {
    if ops != [] {
      NoLosses(cfg, w, s, ops[..|ops| - 1]);
      LossFreeSnoc(cfg, w, s, ops);
    }
  }

  /** The replay is one such run, so the counter can be behind before the node is used. */
  lemma StartedInv(cfg: Config, w: World, gate: Gate, log: seq<Entry>)
    ensures Inv(cfg, Started(cfg, w, gate, log))
    ensures Drift(Started(cfg, w, gate, log)) ==
            Losses(cfg.(recovering := true), w, Empty(gate, log), AsOps(log))
  {
    EmptyInv(cfg, gate, log);
    ReplayIsRun(cfg.(recovering := true), w, Empty(gate, log), log);
    ExactAccounting(cfg.(recovering := true), w, Empty(gate, log), AsOps(log));
  }

  /** From whatever log the node started, the counter is exactly the live bytes if and only if no
      overwrite of a non-empty value evicted itself or was rejected, in the replay or since. */
  lemma CounterExact(cfg: Config, w: World, gate: Gate, log: seq<Entry>, ops: seq<Op>)
    ensures var s := Reached(cfg, w, gate, log, ops);
            s.used == Total(s.items) <==>
            && LossFree(cfg.(recovering := true), w, Empty(gate, log), AsOps(log))
            && LossFree(cfg, w, Started(cfg, w, gate, log), ops)
  {
    var s0 := Started(cfg, w, gate, log);
    StartedInv(cfg, w, gate, log);
    ExactAccounting(cfg, w, s0, ops);
    NoLosses(cfg.(recovering := true), w, Empty(gate, log), AsOps(log));
    NoLosses(cfg, w, s0, ops);
  }

  /** Whatever the log it started from, the victims, failures and interleaved Gets, no reader ever sees
      the counter above the capacity, or a key the policy tracks that is not live. */
  lemma CapacitySafe(cfg: Config, w: World, gate: Gate, log: seq<Entry>, ops: seq<Op>, v: View)
    requires v in Reached(cfg, w, gate, log, ops).seen
    ensures v.used <= cfg.capacity && Tracked(v.hist) <= v.items.Keys
  {
    var s := Reached(cfg, w, gate, log, ops);
    StartedInv(cfg, w, gate, log);
    ExactAccounting(cfg, w, Started(cfg, w, gate, log), ops);
    var i :| 0 <= i < |s.seen| && s.seen[i] == v;
    assert ViewOk(s.seen[i], cfg.capacity);
  }
}
