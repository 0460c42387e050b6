/**
  An operation depends only on what the world does while it runs: two worlds that agree between its
  first and its last section lead to the same state. So what holds in a world without faults holds
  of every operation during which there is none.
 */
module CacheLocality {
  import opened PolicyHistory
  import opened Breaker
  import opened WalCodec
  import opened CacheSpec

  ghost predicate Agree(w: World, w': World, from: nat, to: nat) {
    forall t: nat :: from <= t < to ==> w(t) == w'(t)
  }

  lemma YieldLocal(w: World, w': World, s: St)
    ensures Yield(w, s).t == s.t + 1
    ensures w(s.t) == w'(s.t) ==> Yield(w', s) == Yield(w, s)
  {
  }

  lemma AppendLocal(cfg: Config, w: World, w': World, s: St, e: Entry)
    ensures Append(cfg, w, s, e).0.t == s.t + 1
    ensures w(s.t) == w'(s.t) ==> Append(cfg, w', s, e) == Append(cfg, w, s, e)
  {
    YieldLocal(w, w', s);
    YieldLocal(w, w', s.(log := s.log + [e]));
  }

  lemma DeleteLocal(cfg: Config, w: World, w': World, s: St, k: Key)
    ensures s.t < DeleteLocked(cfg, w, s, k).0.t
    ensures Agree(w, w', s.t, DeleteLocked(cfg, w, s, k).0.t) ==>
              DeleteLocked(cfg, w', s, k) == DeleteLocked(cfg, w, s, k)
  {
    var (a, ok) := Append(cfg, w, s, DeleteEntry(k));
    AppendLocal(cfg, w, w', s, DeleteEntry(k));
    if ok && k in a.items {
      YieldLocal(w, w', Remove(a, k));
    }
  }

  lemma ChooseLocal(cfg: Config, w: World, w': World, s: St)
    ensures Choose(cfg, w, s).0.t == ChooseWithMl(cfg, w, s).0.t == s.t + 1
    ensures w(s.t) == w'(s.t) ==>
              Choose(cfg, w', s) == Choose(cfg, w, s) && ChooseWithMl(cfg, w', s) == ChooseWithMl(cfg, w, s)
  {
    YieldLocal(w, w', s);
    YieldLocal(w, w', s.(gate := Predict(s.gate, Request(s.items != map[], w(s.t).call)).0));
  }

  /** A round of the loop up to its choice of a victim. */
  lemma PickLocal(cfg: Config, w: World, w': World, s: St, c: St)
    requires c == Choose(cfg, w, Yield(w, s)).0
    ensures c.t == s.t + 2
    ensures w(s.t) == w'(s.t) && w(s.t + 1) == w'(s.t + 1) ==>
              Choose(cfg, w', Yield(w', s)) == Choose(cfg, w, Yield(w, s))
  {
    YieldLocal(w, w', s);
    ChooseLocal(cfg, w, w', Yield(w, s));
  }

  lemma {:induction false} EvictLocal(cfg: Config, w: World, w': World, s: St, need: int, count: nat,
                                      attempted: set<Key>, e: Evicted)
    requires e == Evict(cfg, w, s, need, count, attempted)
    ensures s.t <= e.s.t
    ensures Agree(w, w', s.t, e.s.t) ==> Evict(cfg, w', s, need, count, attempted) == e
    decreases s.items.Keys - attempted
  {
    if count < MAX_EVICTIONS && !Roomy(cfg, s, need) && s.items != map[] {
      assert e == Turn(cfg, w, s, need, count, attempted);
      assert Evict(cfg, w', s, need, count, attempted) == Turn(cfg, w', s, need, count, attempted);
      var (c, victim) := Choose(cfg, w, Yield(w, s));
      PickLocal(cfg, w, w', s, c);
      if victim.Some? && victim.value !in attempted && victim.value in c.items {
        var (d, outcome) := DeleteLocked(cfg, w, c, victim.value);
        DeleteLocal(cfg, w, w', c, victim.value);
        LookAllKeys(Publish(s), w(s.t).gets);
        ChooseKeys(cfg, w, Yield(w, s));
        DeleteLockedKeys(cfg, w, c, victim.value);
        assert victim.value in s.items.Keys - attempted;
        EvictLocal(cfg, w, w', d, need, if outcome == Done then count + 1 else count, attempted + {victim.value}, e);
      }
    }
  }

  lemma AttemptTime(cfg: Config, w: World, c: St, need: int, count: nat, attempted: set<Key>, k: Key, e: Evicted)
    requires e == Attempt(cfg, w, c, need, count, attempted, k)
    ensures c.t <= e.s.t
  {
    if k !in attempted && k in c.items {
      var (d, outcome) := DeleteLocked(cfg, w, c, k);
      DeleteLocal(cfg, w, w, c, k);
      EvictLocal(cfg, w, w, d, need, if outcome == Done then count + 1 else count, attempted + {k}, e);
    }
  }

  /** A loop that does not end at once gets to its first pick. */
  lemma EvictPicks(cfg: Config, w: World, s: St, need: int, count: nat, attempted: set<Key>, e: Evicted)
    requires e == Evict(cfg, w, s, need, count, attempted)
    requires count < MAX_EVICTIONS && !Roomy(cfg, s, need) && s.items != map[]
    ensures s.t < e.s.t
  {
    assert e == Turn(cfg, w, s, need, count, attempted);
    var (c, victim) := Choose(cfg, w, Yield(w, s));
    PickLocal(cfg, w, w, s, c);
    if victim.Some? {
      AttemptTime(cfg, w, c, need, count, attempted, victim.value, e);
    }
  }

  lemma ProactiveLocal(cfg: Config, w: World, w': World, s: St)
    ensures s.t < Proactive(cfg, w, s).t
    ensures Agree(w, w', s.t, Proactive(cfg, w, s).t) ==> Proactive(cfg, w', s) == Proactive(cfg, w, s)
  {
    var y, need := Yield(w, s), s.used - cfg.capacity / 2;
    YieldLocal(w, w', s);
    EvictLocal(cfg, w, w', y, need, 0, {}, Evict(cfg, w, y, need, 0, {}));
  }

  lemma TriggerLocal(cfg: Config, w: World, w': World, s: St)
    ensures s.t < Trigger(cfg, w, s).t
    ensures Agree(w, w', s.t, Trigger(cfg, w, s).t) ==> Trigger(cfg, w', s) == Trigger(cfg, w, s)
  {
    YieldLocal(w, w', s);
    ProactiveLocal(cfg, w, w', Yield(w, s));
  }

  lemma RoomLocal(cfg: Config, w: World, w': World, s: St, k: Key, v: Bytes)
    ensures s.t < MakeRoom(cfg, w, s, k, v).s.t
    ensures Agree(w, w', s.t, MakeRoom(cfg, w, s, k, v).s.t) ==> MakeRoom(cfg, w', s, k, v) == MakeRoom(cfg, w, s, k, v)
  {
    var b := Yield(w, Subtract(s, k));
    YieldLocal(w, w', Subtract(s, k));
    EvictLocal(cfg, w, w', b, |v|, 0, {}, Evict(cfg, w, b, |v|, 0, {}));
  }

  lemma CommitLocal(cfg: Config, w: World, w': World, s: St, k: Key, v: Bytes)
    ensures s.t < Commit(cfg, w, s, k, v).0.t
    ensures Agree(w, w', s.t, Commit(cfg, w, s, k, v).0.t) ==> Commit(cfg, w', s, k, v) == Commit(cfg, w, s, k, v)
  {
    var i := Insert(s, k, v);
    YieldLocal(w, w', i);
    TriggerLocal(cfg, w, w', Yield(w, i));
  }

  /** When a Set makes room, and when it inserts. */
  lemma SetTimes(cfg: Config, w: World, s: St, k: Key, v: Bytes, ttl: int)
    ensures var (a, ok) := Append(cfg, w, s, SetEntry(k, v, ttl));
            var e := MakeRoom(cfg, w, a, k, v);
            && a.t == s.t + 1
            && (ok && |v| <= cfg.capacity ==> a.t < e.s.t <= Set(cfg, w, s, k, v, ttl).0.t)
            && (ok && |v| <= cfg.capacity && Freed(cfg, e, |v|) ==> e.s.t < Set(cfg, w, s, k, v, ttl).0.t)
            && s.t < Set(cfg, w, s, k, v, ttl).0.t
  {
    var a := Append(cfg, w, s, SetEntry(k, v, ttl)).0;
    AppendLocal(cfg, w, w, s, SetEntry(k, v, ttl));
    RoomLocal(cfg, w, w, a, k, v);
    CommitLocal(cfg, w, w, MakeRoom(cfg, w, a, k, v).s, k, v);
  }

  /** A Set depends on nothing the world does before it or after it. */
  lemma SetLocal(cfg: Config, w: World, w': World, s: St, k: Key, v: Bytes, ttl: int)
    requires Agree(w, w', s.t, Set(cfg, w, s, k, v, ttl).0.t)
    ensures Set(cfg, w', s, k, v, ttl) == Set(cfg, w, s, k, v, ttl)
    ensures var (a, ok) := Append(cfg, w, s, SetEntry(k, v, ttl));
            && Append(cfg, w', s, SetEntry(k, v, ttl)) == (a, ok)
            && (ok && |v| <= cfg.capacity ==> MakeRoom(cfg, w', a, k, v) == MakeRoom(cfg, w, a, k, v))
  {
    SetTimes(cfg, w, s, k, v, ttl);
    var (a, ok) := Append(cfg, w, s, SetEntry(k, v, ttl));
    AppendLocal(cfg, w, w', s, SetEntry(k, v, ttl));
    if ok && |v| <= cfg.capacity {
      RoomLocal(cfg, w, w', a, k, v);
      CommitLocal(cfg, w, w', MakeRoom(cfg, w, a, k, v).s, k, v);
    }
  }

  lemma WorkerLocal(cfg: Config, w: World, w': World, s: St)
    ensures s.t <= Worker(cfg, w, s).t
    ensures Agree(w, w', s.t, Worker(cfg, w, s).t) ==> Worker(cfg, w', s) == Worker(cfg, w, s)
  {
    if cfg.ml && s.gate.enabled && s.items != map[] {
      var (g, answer) := Predict(s.gate, Request(true, w(s.t).call));
      var y := Yield(w, s.(gate := g));
      YieldLocal(w, w', s.(gate := g));
      if answer.Some? {
        DeleteLocal(cfg, w, w', y, answer.value);
      } else {
        var (c, victim) := ChooseWithMl(cfg, w, y);
        ChooseLocal(cfg, w, w', y);
        if victim.Some? {
          DeleteLocal(cfg, w, w', c, victim.value);
        }
      }
    }
  }

  lemma DoLocal(cfg: Config, w: World, w': World, s: St, op: Op)
    ensures s.t <= Do(cfg, w, s, op).t
    ensures Agree(w, w', s.t, Do(cfg, w, s, op).t) ==> Do(cfg, w', s, op) == Do(cfg, w, s, op)
  {
    match op
    case SetOp(k, v, ttl) =>
      SetTimes(cfg, w, s, k, v, ttl);
      if Agree(w, w', s.t, Do(cfg, w, s, op).t) {
        SetLocal(cfg, w, w', s, k, v, ttl);
      }
    case GetOp(k) =>
    case DeleteOp(k) => DeleteLocal(cfg, w, w', s, k);
    case AskOp =>
      YieldLocal(w, w', s.(gate := Predict(s.gate, Request(s.items != map[], w(s.t).call)).0));
    case WorkerOp => WorkerLocal(cfg, w, w', s);
  }

  /** A run depends only on what the world has done by its end. */
  lemma {:induction false} RunLocal(cfg: Config, w: World, w': World, s: St, ops: seq<Op>)
    ensures s.t <= Run(cfg, w, s, ops).t
    ensures Agree(w, w', s.t, Run(cfg, w, s, ops).t) ==> Run(cfg, w', s, ops) == Run(cfg, w, s, ops)
    decreases |ops|
  {
    if ops != [] {
      RunLocal(cfg, w, w', s, ops[..|ops| - 1]);
      DoLocal(cfg, w, w', Run(cfg, w, s, ops[..|ops| - 1]), ops[|ops| - 1]);
    }
  }

  // ----- a world with nothing outside an interval

  /** As w from one boundary to another; before and after, no Get and no fault. */
  function Confined(w: World, from: nat, to: nat): World {
    t => if from <= t < to then w(t) else Choice([], Call(0, 0, 0, TransportError), true, true)
  }
}
