/**
  Exactly when a Set is rejected for space, when an overwrite evicts the item it replaces, and so what
  the byte counter loses: on LFU and LRU nodes, for Sets without faults and without Gets after the
  first pick of the loop that makes room.
 */
module CacheLosses {
  import opened PolicyHistory
  import opened Breaker
  import opened CacheSpec
  import opened CacheAccounting
  import opened CacheLocality
  import opened CachePolicyLaws
  import opened CacheRecency
  import opened CacheSurvival
  import opened WalCodec

  // ----- what making room starts from

  /** What a Set has when it starts to make room. */
  ghost function BeforeRoom(cfg: Config, w: World, s: St, k: Key, v: Bytes, ttl: int): St {
    Yield(w, Subtract(Append(cfg, w, s, SetEntry(k, v, ttl)).0, k))
  }

  /** A Set on an LFU or LRU node, with no fault while it makes room and no Get after the first pick. */
  ghost predicate RoomQuietly(cfg: Config, w: World, s: St, k: Key, v: Bytes, ttl: int) {
    var e := Room(cfg, w, s, k, v, ttl);
    && !cfg.ml && Inv(cfg, s) && InStep(s) && |v| <= cfg.capacity
    && FaultlessIn(cfg, w, s.t, e.s.t) && QuietIn(w, s.t + 3, e.s.t)
  }

  lemma RoomStarts(cfg: Config, w: World, s: St, k: Key, v: Bytes, ttl: int, b: St, e: Evicted)
    requires RoomQuietly(cfg, w, s, k, v, ttl)
    requires b == BeforeRoom(cfg, w, s, k, v, ttl) && e == Room(cfg, w, s, k, v, ttl)
    ensures Append(cfg, w, s, SetEntry(k, v, ttl)).1
    ensures b.items.Keys == s.items.Keys && b.used == UsedWith(s, k, v) - |v|
    ensures e == if Roomy(cfg, b, |v|) then Evicted(b, Fits, 0) else Evict(cfg, w, b, |v|, 0, {})
    ensures Undisturbed(cfg, w, b, e.s.t) && QuietIn(w, b.t + 1, e.s.t)
  {
    var a := Append(cfg, w, s, SetEntry(k, v, ttl)).0;
    AppendLocal(cfg, w, w, s, SetEntry(k, v, ttl));
    RoomLocal(cfg, w, w, a, k, v);
    assert Sure(cfg, w(s.t));
    AppendSettles(cfg, w, s, SetEntry(k, v, ttl));
    AppendInStep(cfg, w, s, SetEntry(k, v, ttl));
    SubtractDrift(a, k);
    YieldRead(w, Subtract(a, k));
  }

  // ----- exactly when an overwrite evicts itself

  /** An overwrite evicts the very item it replaces, while making room, if and only if fewer than ten
      keys rank before it then, and the bytes without those keys and without the old item, and the
      value, do not fit. */
  lemma EvictsItselfExactly(cfg: Config, w: World, s: St, k: Key, v: Bytes, ttl: int)
    requires RoomQuietly(cfg, w, s, k, v, ttl) && k in s.items
    ensures var b := BeforeRoom(cfg, w, s, k, v, ttl);
            && b.used == s.used - s.items[k].size && k in AtPick(w, b)
            && (EvictsItself(cfg, w, s, k, v, ttl) <==>
                  !Spared(cfg, b.items, b.used, |v|, Ahead(cfg.kind, AtPick(w, b), k)))
  {
    var b, e := BeforeRoom(cfg, w, s, k, v, ttl), Room(cfg, w, s, k, v, ttl);
    RoomStarts(cfg, w, s, k, v, ttl, b, e);
    YieldRead(w, b);
    if Roomy(cfg, b, |v|) {
      SparedNow(cfg, b, |v|, Ahead(cfg.kind, AtPick(w, b), k));
    } else {
      SparesExactly(cfg, w, b, |v|, k, e);
    }
  }

  // ----- exactly when a Set is rejected

  /** A Set is rejected for space if and only if the bytes without the old item and without the ten
      that rank first when the loop starts, and the value, do not fit. */
  lemma SetRejectedExactly(cfg: Config, w: World, s: St, k: Key, v: Bytes, ttl: int)
    requires RoomQuietly(cfg, w, s, k, v, ttl)
    ensures var b := BeforeRoom(cfg, w, s, k, v, ttl);
            && b.used == UsedWith(s, k, v) - |v|
            && (Rejected(cfg, w, s, k, v, ttl) <==> !Freeable(cfg, b.items, b.used, |v|, AtPick(w, b)))
  {
    var b, e := BeforeRoom(cfg, w, s, k, v, ttl), Room(cfg, w, s, k, v, ttl);
    RoomStarts(cfg, w, s, k, v, ttl, b, e);
    if !Roomy(cfg, b, |v|) {
      FreesExactly(cfg, w, b, |v|, e);
    }
  }

  // ----- told before the call

  /** The Set will not find room. */
  ghost predicate Rejectable(cfg: Config, s: St, k: Key, v: Bytes) {
    |v| <= cfg.capacity && !Freeable(cfg, s.items, UsedWith(s, k, v) - |v|, |v|, Ranks(s.hist))
  }

  /** The Set will evict the item it replaces. */
  ghost predicate SelfEvicting(cfg: Config, s: St, k: Key, v: Bytes) {
    && k in s.items && k in Ranks(s.hist) && |v| <= cfg.capacity
    && !Spared(cfg, s.items, UsedWith(s, k, v) - |v|, |v|, Ahead(cfg.kind, Ranks(s.hist), k))
  }

  /** The bytes the counter will lose. */
  ghost function Forfeit(cfg: Config, s: St, op: Op): nat {
    match op
    case SetOp(k, v, ttl) =>
      if k in s.items && (SelfEvicting(cfg, s, k, v) || Rejectable(cfg, s, k, v)) then s.items[k].size else 0
    case _ => 0
  }

  lemma SilentYields(w: World, s: St)
    requires QuietFrom(w, 0)
    ensures Yield(w, s).hist == s.hist && Yield(w, s).items == s.items
  {
    assert Quiet(w(s.t));
  }

  lemma SilentRoom(cfg: Config, w: World, s: St, k: Key, v: Bytes, ttl: int)
    requires QuietFrom(w, 0) && Faultless(cfg, w)
    ensures var b := BeforeRoom(cfg, w, s, k, v, ttl);
            b.items == s.items && AtPick(w, b) == Ranks(s.hist)
  {
    var a := Append(cfg, w, s, SetEntry(k, v, ttl)).0;
    assert Sure(cfg, w(s.t));
    SilentYields(w, s);
    SilentYields(w, s.(log := s.log + [SetEntry(k, v, ttl)]));
    SilentYields(w, Subtract(a, k));
    SilentYields(w, BeforeRoom(cfg, w, s, k, v, ttl));
  }

  lemma SilentLoss(cfg: Config, w: World, s: St, k: Key, v: Bytes, ttl: int)
    requires QuietFrom(w, 0) && Faultless(cfg, w) && !cfg.ml && Inv(cfg, s) && InStep(s)
    ensures Rejected(cfg, w, s, k, v, ttl) <==> Rejectable(cfg, s, k, v)
    ensures EvictsItself(cfg, w, s, k, v, ttl) <==> SelfEvicting(cfg, s, k, v)
  {
    if |v| <= cfg.capacity {
      SilentRoom(cfg, w, s, k, v, ttl);
      SetRejectedExactly(cfg, w, s, k, v, ttl);
      if k in s.items {
        EvictsItselfExactly(cfg, w, s, k, v, ttl);
      }
    }
  }

  /** A Set on an LFU or LRU node, during which no fault occurs and no Get runs: whether it will be
      rejected, whether it will evict the item it replaces, and so what the counter will lose, can be
      told from the state before it. */
  lemma LossToldBefore(cfg: Config, w: World, s: St, k: Key, v: Bytes, ttl: int)
    requires FaultlessIn(cfg, w, s.t, Set(cfg, w, s, k, v, ttl).0.t) && QuietIn(w, s.t, Set(cfg, w, s, k, v, ttl).0.t)
    requires !cfg.ml && Inv(cfg, s) && InStep(s)
    ensures Set(cfg, w, s, k, v, ttl).1 == NoSpace <==> Rejectable(cfg, s, k, v)
    ensures EvictsItself(cfg, w, s, k, v, ttl) <==> SelfEvicting(cfg, s, k, v)
    ensures Loss(cfg, w, s, SetOp(k, v, ttl)) == Forfeit(cfg, s, SetOp(k, v, ttl))
  {
    var to := Set(cfg, w, s, k, v, ttl).0.t;
    ConfinedFaultless(cfg, w, s.t, to);
    SetLocal(cfg, w, Confined(w, s.t, to), s, k, v, ttl);
    SilentLoss(cfg, Confined(w, s.t, to), s, k, v, ttl);
  }

  // ----- over whole runs

  lemma {:induction false} PrefixIsEarlier(cfg: Config, w: World, s: St, ops: seq<Op>, n: nat)
    requires n <= |ops|
    ensures s.t <= Run(cfg, w, s, ops[..n]).t <= Run(cfg, w, s, ops).t
    decreases |ops|
  {
    RunLocal(cfg, w, w, s, ops[..n]);
    if n == |ops| {
      assert ops[..n] == ops;
    } else {
      var init := ops[..|ops| - 1];
      PrefixIsEarlier(cfg, w, s, init, n);
      assert init[..n] == ops[..n];
      DoLocal(cfg, w, w, Run(cfg, w, s, init), ops[|ops| - 1]);
    }
  }

  /** A run in which no fault occurs and no Get runs but as an operation. */
  ghost predicate QuietRun(cfg: Config, w: World, s: St, ops: seq<Op>) {
    && !cfg.ml && Inv(cfg, s) && InStep(s)
    && FaultlessIn(cfg, w, s.t, Run(cfg, w, s, ops).t) && QuietIn(w, s.t, Run(cfg, w, s, ops).t)
  }

  lemma QuietPrefix(cfg: Config, w: World, s: St, ops: seq<Op>, n: nat)
    requires QuietRun(cfg, w, s, ops) && n < |ops|
    ensures Inv(cfg, Run(cfg, w, s, ops[..n])) && InStep(Run(cfg, w, s, ops[..n]))
    ensures var before := Run(cfg, w, s, ops[..n]);
            && s.t <= before.t <= Do(cfg, w, before, ops[n]).t <= Run(cfg, w, s, ops).t
  {
    PrefixIsEarlier(cfg, w, s, ops, n);
    PrefixIsEarlier(cfg, w, s, ops, n + 1);
    assert ops[..n + 1][..n] == ops[..n];
    DoLocal(cfg, w, w, Run(cfg, w, s, ops[..n]), ops[n]);
    ExactAccounting(cfg, w, s, ops[..n]);
    KeptInStep(cfg, w, s, ops[..n]);
  }

  /** No operation was bound to make the counter lose anything. */
  ghost predicate NoForfeits(cfg: Config, w: World, s: St, ops: seq<Op>) {
    forall n :: 0 <= n < |ops| ==> Forfeit(cfg, Run(cfg, w, s, ops[..n]), ops[n]) == 0
  }

  lemma LossAtToldBefore(cfg: Config, w: World, s: St, ops: seq<Op>, n: nat)
    requires QuietRun(cfg, w, s, ops) && n < |ops|
    ensures LossAt(cfg, w, s, ops, n) == Forfeit(cfg, Run(cfg, w, s, ops[..n]), ops[n])
  {
    QuietPrefix(cfg, w, s, ops, n);
    match ops[n]
    case SetOp(k, v, ttl) => LossToldBefore(cfg, w, Run(cfg, w, s, ops[..n]), k, v, ttl);
    case _ =>
  }

  lemma LossFreeToldBefore(cfg: Config, w: World, s: St, ops: seq<Op>)
    requires QuietRun(cfg, w, s, ops)
    ensures LossFree(cfg, w, s, ops) <==> NoForfeits(cfg, w, s, ops)
  {
    forall n | 0 <= n < |ops|
      ensures LossAt(cfg, w, s, ops, n) == Forfeit(cfg, Run(cfg, w, s, ops[..n]), ops[n])
    {
      LossAtToldBefore(cfg, w, s, ops, n);
    }
  }

  /** On an LFU or LRU node that replays whatever log it finds and then runs, all without faults and
      without Gets inside an operation: the counter is exactly the live bytes if and only if no Set, of
      the log or since, found a state in which it was bound to be rejected or to evict what it replaces. */
  lemma CounterExactToldBefore(cfg: Config, w: World, gate: Gate, log: seq<Entry>, ops: seq<Op>)
    requires !cfg.ml && FaultlessIn(cfg, w, 0, Reached(cfg, w, gate, log, ops).t)
    requires QuietIn(w, 0, Reached(cfg, w, gate, log, ops).t)
    ensures var s := Reached(cfg, w, gate, log, ops);
            s.used == Total(s.items) <==>
            && NoForfeits(cfg.(recovering := true), w, Empty(gate, log), AsOps(log))
            && NoForfeits(cfg, w, Started(cfg, w, gate, log), ops)
  {
    var recovering, s0 := cfg.(recovering := true), Started(cfg, w, gate, log);
    EmptyInv(recovering, gate, log);
    ReplayIsRun(recovering, w, Empty(gate, log), log);
    RunLocal(recovering, w, w, Empty(gate, log), AsOps(log));
    RunLocal(cfg, w, w, s0, ops);
    LossFreeToldBefore(recovering, w, Empty(gate, log), AsOps(log));
    StartedInv(cfg, w, gate, log);
    StartedInStep(cfg, w, gate, log);
    LossFreeToldBefore(cfg, w, s0, ops);
    CounterExact(cfg, w, gate, log, ops);
  }
}
